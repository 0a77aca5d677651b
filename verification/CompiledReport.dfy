/** When the limits derived from the runtime limits admit the reports the compiler builds (limits.rs, result.rs). */
module CompiledReport {
  import opened Machine
  import opened Ordering
  import opened Protocol
  import opened CompilationReport
  import opened Planning
  import opened Relations
  import opened Issues
  import opened Acceptance
  import opened Emission
  import opened CompiledPatch

  // ----- explanations of planned entities -----

  function KeyBytes(e: ImaginedEntity): nat { |e.key| }

  lemma {:induction false} DefaultDecisionsShape(e: ImaginedEntity)
    ensures |DefaultDecisions(e)| <= 3 && Distinguished(DefaultDecisions(e))
    ensures forall d | d in DefaultDecisions(e) :: DecisionShape(d) && d.entityKey == e.key && 2 <= d.code.Rank() <= 4
  {
  }

  lemma {:induction false} EntityDecisionsShape(e: ImaginedEntity, id: EntityId)
    ensures |EntityDecisions(e, id)| <= 4 && Distinguished(EntityDecisions(e, id))
    ensures forall d | d in EntityDecisions(e, id) :: DecisionShape(d) && d.entityKey == e.key && d.code.Rank() <= 4
  {
    DefaultDecisionsShape(e);
    var first := if e.preferredId == Some(id) then [] else [IdDecision(e, id)];
    BlocksDistinguished(first, DefaultDecisions(e));
  }

  lemma {:induction false} SameKeyText(ds: seq<Decision>, key: Text)
    requires forall d | d in ds :: d.entityKey == key
    ensures Sum(ds, DecisionText) == |ds| * |key|
  {
    if ds != [] { SameKeyText(ds[1..], key); }
  }

  lemma {:induction false} PlanDecisionsText(es: seq<ImaginedEntity>, base: seq<EntityPlan>)
    requires |base| <= |es|
    ensures |PlanDecisions(es, base)| <= 4 * |base|
    ensures Sum(PlanDecisions(es, base), DecisionText) <= 4 * Sum(es[..|base|], KeyBytes)
  {
    if base != [] {
      var n := |base| - 1;
      var before, more := PlanDecisions(es, base[..n]), EntityDecisions(es[n], base[n].entityId);
      PlanDecisionsText(es, base[..n]);
      EntityDecisionsShape(es[n], base[n].entityId);
      SameKeyText(more, es[n].key);
      SumAppend(before, more, DecisionText);
      SumTake(es, n, KeyBytes);
      FourTimes(|more|, |es[n].key|);
    }
  }

  lemma {:induction false} EntityDecisionsBytes(e: ImaginedEntity, id: EntityId)
    ensures Sum(EntityDecisions(e, id), DecisionBytes) <= Sum(EntityDecisions(e, id), DecisionText) + 48
  {
    var first, rest := if e.preferredId == Some(id) then [] else [IdDecision(e, id)], DefaultDecisions(e);
    DefaultDecisionsShape(e);
    SumWithin(first, DecisionBytes, DecisionText, 24);
    SumWithin(rest, DecisionBytes, DecisionText, 8);
    SumAppend(first, rest, DecisionBytes);
    SumAppend(first, rest, DecisionText);
  }

  /** At most 48 bytes beyond the text for each planned entity: one identity and three defaults. */
  lemma {:induction false} PlanDecisionsBytes(es: seq<ImaginedEntity>, base: seq<EntityPlan>)
    requires |base| <= |es|
    ensures Sum(PlanDecisions(es, base), DecisionBytes) <= Sum(PlanDecisions(es, base), DecisionText) + 48 * |base|
  {
    if base != [] {
      var n := |base| - 1;
      var before, more := PlanDecisions(es, base[..n]), EntityDecisions(es[n], base[n].entityId);
      PlanDecisionsBytes(es, base[..n]);
      EntityDecisionsBytes(es[n], base[n].entityId);
      SumAppend(before, more, DecisionBytes);
      SumAppend(before, more, DecisionText);
    }
  }

  ghost predicate AboutFirst(es: seq<ImaginedEntity>, n: nat, d: Decision) {
    exists x :: 0 <= x < n <= |es| && d.entityKey == es[x].key
  }

  lemma {:induction false} PlanDecisionsShape(es: seq<ImaginedEntity>, base: seq<EntityPlan>)
    requires |base| <= |es| && forall x, y | 0 <= x < y < |es| :: es[x].key != es[y].key
    ensures forall d | d in PlanDecisions(es, base) ::
      DecisionShape(d) && d.code.Rank() <= 4 && AboutFirst(es, |base|, d)
    ensures Distinguished(PlanDecisions(es, base))
  {
    if base != [] {
      var n := |base| - 1;
      var before, more := PlanDecisions(es, base[..n]), EntityDecisions(es[n], base[n].entityId);
      PlanDecisionsShape(es, base[..n]);
      EntityDecisionsShape(es[n], base[n].entityId);
      forall d | d in before ensures AboutFirst(es, n + 1, d) && d.entityKey != es[n].key {
        assert AboutFirst(es, n, d);
      }
      forall d | d in more ensures AboutFirst(es, n + 1, d) { assert d.entityKey == es[n].key; }
      BlocksDistinguished(before, more);
    }
  }

  lemma {:induction false} BlocksDistinguished(a: seq<Decision>, b: seq<Decision>)
    requires Distinguished(a) && Distinguished(b)
    requires forall d, e | d in a && e in b :: d.entityKey != e.entityKey || d.code != e.code
    ensures Distinguished(a + b)
  {
    forall i, j | 0 <= i < |a| && 0 <= j < |b| ensures a[i].entityKey != b[j].entityKey || a[i].code != b[j].code {
      assert a[i] in a && b[j] in b;
    }
  }

  lemma FourTimes(n: nat, k: nat)
    requires n <= 4
    ensures n * k <= 4 * k
  {
  }

  // ----- explanations of applied relations -----

  /** A decision about the relation that owns its entity. */
  ghost predicate Applied(im: Imagination, d: Decision) {
    && DecisionShape(d) && d.code.Rank() >= 5 && d.relationIndex.Some?
    && d.relationIndex.value < |im.relations| && im.relations[d.relationIndex.value].Subject() == d.entityKey
  }

  ghost predicate DistinctKeys(ds: seq<Decision>) {
    forall i, j | 0 <= i < j < |ds| :: ds[i].entityKey != ds[j].entityKey
  }

  /** A plan that carries at most the relation that owns it. */
  ghost predicate CarriesOwner(im: Imagination, p: EntityPlan) {
    && (p.parentRelation.None? || p.placement.None?)
    && (p.parentRelation.Some? ==>
          p.parentRelation.value < |im.relations| && im.relations[p.parentRelation.value].Subject() == p.key)
    && (p.placement.Some? ==>
          && p.placement.value.relationIndex < |im.relations|
          && im.relations[p.placement.value.relationIndex].Subject() == p.key)
  }

  lemma {:induction false} RelationDecisionShape(im: Imagination, p: EntityPlan)
    requires CarriesOwner(im, p)
    ensures |RelationDecision(p)| <= 1
    ensures forall d | d in RelationDecision(p) :: Applied(im, d) && d.entityKey == p.key
  {
  }

  lemma {:induction false} FinalPlansCarryOwners(
    pf: Platform, im: Imagination, scene: SceneView, attempts: nat, base: seq<EntityPlan>, plans: seq<EntityPlan>)
    requires Compiled(pf, im, scene, attempts, base, plans)
    ensures forall x | 0 <= x < |plans| :: CarriesOwner(im, plans[x])
  {
    forall x | 0 <= x < |plans| ensures CarriesOwner(im, plans[x]) {
      FinalFields(pf, im, scene, attempts, base, plans, x);
      OwnerIsFirst(im, plans[x].key, |im.relations|);
    }
  }

  ghost predicate AboutPlan(plans: seq<EntityPlan>, d: Decision) {
    exists x :: 0 <= x < |plans| && d.entityKey == plans[x].key
  }

  lemma {:induction false} RelationDecisionsShape(im: Imagination, plans: seq<EntityPlan>)
    requires forall x | 0 <= x < |plans| :: CarriesOwner(im, plans[x])
    requires forall x, y | 0 <= x < y < |plans| :: plans[x].key != plans[y].key
    ensures forall d | d in RelationDecisions(plans) :: Applied(im, d) && AboutPlan(plans, d)
    ensures DistinctKeys(RelationDecisions(plans))
  {
    if plans != [] {
      var n := |plans| - 1;
      RelationDecisionsShape(im, plans[..n]);
      RelationDecisionShape(im, plans[n]);
      forall d | d in RelationDecisions(plans[..n]) ensures AboutPlan(plans, d) && d.entityKey != plans[n].key {
        var x :| 0 <= x < n && d.entityKey == plans[..n][x].key;
        assert plans[x].key == d.entityKey;
      }
      forall d | d in RelationDecision(plans[n]) ensures AboutPlan(plans, d) { assert d.entityKey == plans[n].key; }
    }
  }

  lemma {:induction false} OneDecisionText(im: Imagination, p: EntityPlan)
    requires CarriesOwner(im, p)
    ensures Sum(RelationDecision(p), DecisionText) <= |p.key|
  {
    RelationDecisionShape(im, p);
    if RelationDecision(p) != [] {
      SumPush([], RelationDecision(p)[0], DecisionText);
      assert RelationDecision(p) == [] + [RelationDecision(p)[0]];
    }
  }

  lemma {:induction false} RelationDecisionsText(im: Imagination, plans: seq<EntityPlan>, es: seq<ImaginedEntity>)
    requires |plans| == |es| && forall x | 0 <= x < |plans| :: CarriesOwner(im, plans[x]) && plans[x].key == es[x].key
    ensures Sum(RelationDecisions(plans), DecisionText) <= Sum(es, KeyBytes)
  {
    if plans != [] {
      var n := |plans| - 1;
      RelationDecisionsText(im, plans[..n], es[..n]);
      OneDecisionText(im, plans[n]);
      SumAppend(RelationDecisions(plans[..n]), RelationDecision(plans[n]), DecisionText);
      SumTake(es, n, KeyBytes);
      assert es[..n + 1] == es;
    }
  }

  /** At most 12 bytes beyond the text for each applied relation, and one of those for each plan. */
  lemma {:induction false} RelationDecisionsBytes(im: Imagination, plans: seq<EntityPlan>)
    requires forall x | 0 <= x < |plans| :: CarriesOwner(im, plans[x])
    ensures |RelationDecisions(plans)| <= |plans|
    ensures Sum(RelationDecisions(plans), DecisionBytes) <=
      Sum(RelationDecisions(plans), DecisionText) + 12 * |RelationDecisions(plans)|
  {
    if plans != [] {
      var n := |plans| - 1;
      var before, more := RelationDecisions(plans[..n]), RelationDecision(plans[n]);
      RelationDecisionsBytes(im, plans[..n]);
      RelationDecisionShape(im, plans[n]);
      SumWithin(more, DecisionBytes, DecisionText, 12);
      SumAppend(before, more, DecisionBytes);
      SumAppend(before, more, DecisionText);
    }
  }

  /** No more applied-relation decisions than relations. */
  lemma {:induction false} AppliedCount(im: Imagination, ds: seq<Decision>)
    requires forall d | d in ds :: Applied(im, d)
    requires DistinctKeys(ds)
    ensures |ds| <= |im.relations|
  {
    var indices :=
      seq(|ds|, i requires 0 <= i < |ds| => if ds[i].relationIndex.Some? then ds[i].relationIndex.value else 0);
    forall i, j | 0 <= i < j < |indices| ensures indices[i] != indices[j] {
      assert Applied(im, ds[i]) && Applied(im, ds[j]);
    }
    BelowIs(|im.relations|);
    forall x | x in indices ensures x in Below(|im.relations|) {
      var i :| 0 <= i < |ds| && indices[i] == x;
      assert Applied(im, ds[i]);
    }
    DistinctWithin(indices, Below(|im.relations|));
  }

  // ----- reports -----

  /** The report of an imagination with no problem. */
  function SuccessReport(im: Imagination, scene: SceneView, decisions: seq<Decision>, plans: seq<EntityPlan>)
    : CompilationResult
  {
    CompilationResult(SCHEMA_V1, im.imaginationId, scene.revision, Some(PatchOf(im, plans)),
      SortBy(decisions, DecisionCmp), [])
  }

  /** The report of an imagination with problems. */
  function ProblemReport(im: Imagination, scene: SceneView, decisions: seq<Decision>, problems: seq<Unresolved>)
    : CompilationResult
  {
    CompilationResult(SCHEMA_V1, im.imaginationId, scene.revision, None,
      SortBy(decisions, DecisionCmp), SortBy(problems, UnresolvedCmp))
  }

  /** What a report owes to its imagination, whichever outcome it has. */
  ghost predicate Bounded(im: Imagination, r: CompilationResult) {
    && |r.decisions| <= 4 * |im.entities| + |im.relations|
    && |r.unresolved| <= |im.relations| + |im.constraints|
    && Sum(r.decisions, DecisionText) + Sum(r.unresolved, UnresolvedText) <= 5 * im.TextBytes()
    && (forall d | d in r.decisions :: DecisionShape(d)) && StrictlySorted(r.decisions, DecisionCmp)
    && (forall u | u in r.unresolved :: UnresolvedShape(u)) && StrictlySorted(r.unresolved, UnresolvedCmp)
  }

  lemma {:induction false} EntityTextTotals(es: seq<ImaginedEntity>)
    ensures Sum(es, KeyBytes) <= Sum(es, EntityText) && Sum(es, EntityNameBytes) <= Sum(es, EntityText)
  {
    if es != [] { EntityTextTotals(es[1..]); }
  }

  lemma {:induction false} KeyTotals(im: Imagination)
    requires im.DistinctKeys()
    ensures |KeyOrder(im)| == |im.entities| && KeyOrder(im)[..|im.entities|] == KeyOrder(im)
    ensures Sum(KeyOrder(im), KeyBytes) + Sum(im.relations, RelationText) <= im.TextBytes()
    ensures im.OutputTextBytes() <= im.TextBytes()
  {
    KeyOrderStrict(im);
    SumOfPermutation(KeyOrder(im), im.entities, KeyBytes);
    EntityTextTotals(im.entities);
  }

  lemma {:induction false} SortedDecisions(ds: seq<Decision>)
    requires Distinguished(ds) && forall d | d in ds :: DecisionShape(d)
    ensures var s := SortBy(ds, DecisionCmp);
      && |s| == |ds| && Sum(s, DecisionText) == Sum(ds, DecisionText) && Sum(s, DecisionBytes) == Sum(ds, DecisionBytes)
      && StrictlySorted(s, DecisionCmp)
      && forall d | d in s :: DecisionShape(d)
  {
    var s := SortBy(ds, DecisionCmp);
    DistinguishedSorts(ds);
    DecisionOrder();
    SortBySorts(ds, DecisionCmp);
    SumOfPermutation(s, ds, DecisionText);
    SumOfPermutation(s, ds, DecisionBytes);
    forall d | d in s ensures DecisionShape(d) { assert d in Elements(s); }
  }

  lemma {:induction false} SuccessDecisions(
    pf: Platform, im: Imagination, scene: SceneView, attempts: nat, base: seq<EntityPlan>, plans: seq<EntityPlan>)
    requires Compiled(pf, im, scene, attempts, base, plans)
    ensures var ds := PlanDecisions(KeyOrder(im), base) + RelationDecisions(plans);
      && |ds| <= 4 * |im.entities| + |im.relations|
      && Sum(ds, DecisionText) <= 5 * Sum(KeyOrder(im), KeyBytes)
      && Distinguished(ds) && forall d | d in ds :: DecisionShape(d)
  {
    var es := KeyOrder(im);
    KeyOrderStrict(im);
    FinalKeysDistinct(pf, im, scene, attempts, base, plans);
    FinalPlansCarryOwners(pf, im, scene, attempts, base, plans);
    CombinedDecisions(im, es, base, plans);
  }

  lemma {:induction false} CombinedDecisions(
    im: Imagination, es: seq<ImaginedEntity>, base: seq<EntityPlan>, plans: seq<EntityPlan>)
    requires |base| == |es| == |plans| && Emits(es, plans)
    requires forall x, y | 0 <= x < y < |es| :: es[x].key != es[y].key
    requires forall x | 0 <= x < |plans| :: CarriesOwner(im, plans[x])
    ensures var ds := PlanDecisions(es, base) + RelationDecisions(plans);
      && |ds| <= 4 * |es| + |im.relations| && Sum(ds, DecisionText) <= 5 * Sum(es, KeyBytes)
      && Distinguished(ds) && forall d | d in ds :: DecisionShape(d)
  {
    var planned, applied := PlanDecisions(es, base), RelationDecisions(plans);
    PlanDecisionsText(es, base);
    PlanDecisionsShape(es, base);
    RelationDecisionsShape(im, plans);
    RelationDecisionsText(im, plans, es);
    AppliedCount(im, applied);
    assert es[..|base|] == es;
    SumAppend(planned, applied, DecisionText);
    BlocksDistinguished(planned, applied);
  }

  lemma {:induction false} SuccessBounded(
    pf: Platform, im: Imagination, scene: SceneView, attempts: nat, base: seq<EntityPlan>, plans: seq<EntityPlan>)
    requires Compiled(pf, im, scene, attempts, base, plans)
    ensures Bounded(im, SuccessReport(im, scene, PlanDecisions(KeyOrder(im), base) + RelationDecisions(plans), plans))
  {
    SuccessDecisions(pf, im, scene, attempts, base, plans);
    DecisionsBounded(im, scene, PlanDecisions(KeyOrder(im), base) + RelationDecisions(plans), plans);
  }

  lemma {:induction false} DecisionsBounded(
    im: Imagination, scene: SceneView, ds: seq<Decision>, plans: seq<EntityPlan>)
    requires im.DistinctKeys() && |ds| <= 4 * |im.entities| + |im.relations|
    requires Sum(ds, DecisionText) <= 5 * Sum(KeyOrder(im), KeyBytes)
    requires Distinguished(ds) && forall d | d in ds :: DecisionShape(d)
    ensures Bounded(im, SuccessReport(im, scene, ds, plans))
  {
    KeyTotals(im);
    SortedDecisions(ds);
  }

  lemma {:induction false} ProblemsBounded(
    pf: Platform, im: Imagination, scene: SceneView, attempts: nat, base: seq<EntityPlan>)
    requires im.DistinctKeys() && |base| == |KeyOrder(im)|
    ensures Bounded(im, ProblemReport(im, scene, PlanDecisions(KeyOrder(im), base), Problems(pf, im, scene)))
  {
    var problems := Problems(pf, im, scene);
    var sorted := SortBy(problems, UnresolvedCmp);
    KeyOrderStrict(im);
    KeyTotals(im);
    PlanDecisionsShape(KeyOrder(im), base);
    PlanDecisionsText(KeyOrder(im), base);
    assert KeyOrder(im)[..|base|] == KeyOrder(im);
    SortedDecisions(PlanDecisions(KeyOrder(im), base));
    ProblemsShape(pf, im, scene);
    SortedProblems(problems);
    SumOfPermutation(sorted, problems, UnresolvedText);
  }

  lemma {:induction false} SortedProblems(problems: seq<Unresolved>)
    requires NoDuplicates(problems) && forall u | u in problems :: UnresolvedShape(u)
    ensures var s := SortBy(problems, UnresolvedCmp);
      && multiset(s) == multiset(problems) && |s| == |problems| && StrictlySorted(s, UnresolvedCmp)
      && forall u | u in s :: UnresolvedShape(u)
  {
    var s := SortBy(problems, UnresolvedCmp);
    UnresolvedOrder();
    SortBySorts(problems, UnresolvedCmp);
    PermutationNoDuplicates(s, problems);
    SortedDistinctIsStrict(s, UnresolvedCmp);
    forall u | u in s ensures UnresolvedShape(u) { assert u in Elements(s); }
  }

  /** `sort_by` then `dedup` on the reported entries gives each problem once, in canonical order. */
  lemma {:induction false} DedupedAreProblems(reported: seq<Unresolved>, problems: seq<Unresolved>)
    requires Elements(reported) == Elements(problems) && NoDuplicates(problems)
    requires forall u | u in problems :: UnresolvedShape(u)
    ensures Dedup(SortBy(reported, UnresolvedCmp)) == SortBy(problems, UnresolvedCmp)
  {
    UnresolvedOrder();
    SortBySorts(reported, UnresolvedCmp);
    SortBySorts(problems, UnresolvedCmp);
    SortedProblems(problems);
    DedupStrict(SortBy(reported, UnresolvedCmp), UnresolvedCmp);
    StrictlySortedUnique(Dedup(SortBy(reported, UnresolvedCmp)), SortBy(problems, UnresolvedCmp), UnresolvedCmp);
  }

  // ----- admission under the derived limits -----

  /** The derived count limits cover every report, saturated or not. */
  lemma {:induction false} CountsFit(im: Imagination, limits: RuntimeLimits, r: CompilationResult)
    requires ValidateImagination(im, limits).None? && Bounded(im, r)
    ensures Sat32(|r.decisions|) <= DerivedLimits(limits).maxDecisions
    ensures Sat32(|r.unresolved|) <= DerivedLimits(limits).maxUnresolvedConstraints
  {
    assert CheckCollections(im, limits).None?;
  }

  lemma {:induction false} TextFits(im: Imagination, limits: RuntimeLimits, r: CompilationResult)
    requires ValidateImagination(im, limits).None? && im.DistinctKeys() && Bounded(im, r)
    requires r.patch.Some? ==> r.patch.value.TextBytes() == im.OutputTextBytes()
    ensures Sat64(r.TextBytes()) <= DerivedLimits(limits).maxTextBytes
  {
    assert CheckEntitiesAndOutput(im, limits).None?;
    KeyTotals(im);
  }

  /** Of all checks on a bounded report with a legal outcome, only the logical size can fail. */
  lemma {:induction false} BoundedIsAdmittedIff(im: Imagination, limits: RuntimeLimits, r: CompilationResult)
    requires ValidateImagination(im, limits).None? && im.DistinctKeys() && Bounded(im, r)
    requires r.schemaVersion == SCHEMA_V1 && CheckOutcome(r, limits).None?
    requires r.patch.Some? ==> r.patch.value.TextBytes() == im.OutputTextBytes()
    ensures ValidateResult(r, DerivedLimits(limits)) ==
      (if Sat64(r.LogicalBytes()) <= DerivedLimits(limits).maxDecodedBytes then None else Some(ReportSizeLimitExceeded))
  {
    CountsFit(im, limits, r);
    TextFits(im, limits, r);
    DecisionOrder();
    UnresolvedOrder();
    NeighboursDecideOrder(r.decisions, DecisionCmp);
    NeighboursDecideOrder(r.unresolved, UnresolvedCmp);
    assert CheckDecisions(r.decisions).None? && CheckUnresolved(r.unresolved).None?;
  }

  // ----- success -----

  lemma {:induction false} SuccessBytes(
    pf: Platform, im: Imagination, scene: SceneView, attempts: nat, base: seq<EntityPlan>, plans: seq<EntityPlan>)
    requires Compiled(pf, im, scene, attempts, base, plans)
    ensures |RelationDecisions(plans)| <= |im.entities| && |RelationDecisions(plans)| <= |im.relations|
    ensures var ds := PlanDecisions(KeyOrder(im), base) + RelationDecisions(plans);
      Sum(ds, DecisionBytes) <= Sum(ds, DecisionText) + 48 * |im.entities| + 12 * |RelationDecisions(plans)|
  {
    var planned, applied := PlanDecisions(KeyOrder(im), base), RelationDecisions(plans);
    KeyOrderStrict(im);
    FinalKeysDistinct(pf, im, scene, attempts, base, plans);
    FinalPlansCarryOwners(pf, im, scene, attempts, base, plans);
    PlanDecisionsBytes(KeyOrder(im), base);
    RelationDecisionsBytes(im, plans);
    RelationDecisionsShape(im, plans);
    AppliedCount(im, applied);
    SumAppend(planned, applied, DecisionBytes);
    SumAppend(planned, applied, DecisionText);
  }

  /**
   * With four components per entity in 32 bits, 48 bytes for each entity and 12 for each applied relation stay within
   * the 27 bytes allowed for each decision, even where the decision count saturates.
   */
  lemma {:induction false} SuccessArithmetic(
    im: Imagination, limits: RuntimeLimits, patch: nat, applied: nat, size: nat)
    requires CheckCollections(im, limits).None? && 4 * |im.entities| <= U32_MAX
    requires applied <= |im.entities| && applied <= |im.relations|
    requires Sat64(im.TextBytes()) <= limits.maxTextBytes && Sat64(patch) <= limits.maxDecodedBytes
    requires size <= 35 + patch + 5 * im.TextBytes() + 48 * |im.entities| + 12 * applied
    ensures Sat64(size) <= DerivedLimits(limits).maxDecodedBytes
  {
    var d := DerivedLimits(limits).maxDecisions;
    assert d == U32_MAX || d >= 4 * |im.entities| + applied;
  }

  /**
   * The derived limits admit the report of a compiled imagination exactly when its patch is admitted: four components
   * per entity must fit 32 bits.
   */
  lemma {:induction false} SuccessAdmittedIff(
    pf: Platform, im: Imagination, scene: SceneView, attempts: nat, base: seq<EntityPlan>, plans: seq<EntityPlan>,
    limits: RuntimeLimits)
    requires ValidateImagination(im, limits).None? && im.baseRevision == scene.revision
    requires Compiled(pf, im, scene, attempts, base, plans)
    ensures var ds := PlanDecisions(KeyOrder(im), base) + RelationDecisions(plans);
      ValidateResult(SuccessReport(im, scene, ds, plans), DerivedLimits(limits)).None? <==> 4 * |im.entities| <= U32_MAX
  {
    PatchAdmittedIff(pf, im, scene, attempts, base, plans, limits);
    if 4 * |im.entities| <= U32_MAX {
      SuccessFits(pf, im, scene, attempts, base, plans, limits);
    }
  }

  lemma {:induction false} SuccessFits(
    pf: Platform, im: Imagination, scene: SceneView, attempts: nat, base: seq<EntityPlan>, plans: seq<EntityPlan>,
    limits: RuntimeLimits)
    requires ValidateImagination(im, limits).None? && im.baseRevision == scene.revision
    requires Compiled(pf, im, scene, attempts, base, plans) && 4 * |im.entities| <= U32_MAX
    requires ValidatePatch(PatchOf(im, plans), limits).None?
    ensures var ds := PlanDecisions(KeyOrder(im), base) + RelationDecisions(plans);
      ValidateResult(SuccessReport(im, scene, ds, plans), DerivedLimits(limits)).None?
  {
    var ds := PlanDecisions(KeyOrder(im), base) + RelationDecisions(plans);
    var r := SuccessReport(im, scene, ds, plans);
    SuccessBounded(pf, im, scene, attempts, base, plans);
    PatchSizes(pf, im, scene, attempts, base, plans);
    SuccessOutcome(im, scene, ds, plans, limits);
    BoundedIsAdmittedIff(im, limits, r);
    SuccessBytes(pf, im, scene, attempts, base, plans);
    SuccessSize(pf, im, scene, attempts, base, plans);
    TextAdmitted(im, limits);
    PatchWithin(PatchOf(im, plans), limits);
    SuccessArithmetic(im, limits, PatchOf(im, plans).LogicalBytes(), |RelationDecisions(plans)|, r.LogicalBytes());
  }

  lemma {:induction false} SuccessOutcome(
    im: Imagination, scene: SceneView, ds: seq<Decision>, plans: seq<EntityPlan>, limits: RuntimeLimits)
    requires im.baseRevision == scene.revision && ValidatePatch(PatchOf(im, plans), limits).None?
    ensures CheckOutcome(SuccessReport(im, scene, ds, plans), limits).None?
  {
  }

  lemma PatchWithin(p: Patch, limits: RuntimeLimits)
    requires ValidatePatch(p, limits).None?
    ensures Sat64(p.LogicalBytes()) <= limits.maxDecodedBytes
  {
  }

  lemma TextAdmitted(im: Imagination, limits: RuntimeLimits)
    requires ValidateImagination(im, limits).None?
    ensures CheckCollections(im, limits).None? && Sat64(im.TextBytes()) <= limits.maxTextBytes
  {
    assert CheckEntitiesAndOutput(im, limits).None?;
  }

  lemma {:induction false} SuccessSize(
    pf: Platform, im: Imagination, scene: SceneView, attempts: nat, base: seq<EntityPlan>, plans: seq<EntityPlan>)
    requires Compiled(pf, im, scene, attempts, base, plans)
    ensures var ds := PlanDecisions(KeyOrder(im), base) + RelationDecisions(plans);
      SuccessReport(im, scene, ds, plans).LogicalBytes() <=
      35 + PatchOf(im, plans).LogicalBytes() + 5 * im.TextBytes() + 48 * |im.entities| + 12 * |RelationDecisions(plans)|
  {
    var ds := PlanDecisions(KeyOrder(im), base) + RelationDecisions(plans);
    SuccessDecisions(pf, im, scene, attempts, base, plans);
    SuccessBytes(pf, im, scene, attempts, base, plans);
    SortedDecisions(ds);
    KeyTotals(im);
  }

  // ----- problems -----

  /** A relation entry takes 18 bytes beyond its text, a constraint entry 34. */
  lemma {:induction false} ProblemsBytes(pf: Platform, im: Imagination, scene: SceneView)
    ensures Sum(Problems(pf, im, scene), UnresolvedBytes) <=
      Sum(Problems(pf, im, scene), UnresolvedText) + 18 * |im.relations| + 34 * |im.constraints|
  {
    var cs, rs := ConstraintIssues(im, scene, |im.constraints|), RelationProblems(pf, im, scene, |im.relations|);
    ConstraintIssuesShape(im, scene, |im.constraints|);
    RelationProblemsShape(pf, im, scene, |im.relations|);
    forall u | u in cs ensures UnresolvedBytes(u) <= UnresolvedText(u) + 34 {
      assert ConstraintEntryBelow(u, |im.constraints|);
    }
    forall u | u in rs ensures UnresolvedBytes(u) <= UnresolvedText(u) + 18 { assert EntryBelow(u, |im.relations|); }
    SumWithin(cs, UnresolvedBytes, UnresolvedText, 34);
    SumWithin(rs, UnresolvedBytes, UnresolvedText, 18);
    SumAppend(cs, rs, UnresolvedBytes);
    SumAppend(cs, rs, UnresolvedText);
  }

  /** What the explanations of one planned entity take: a lost or missing preferred identity, and three defaults. */
  function EntityExplanationBytes(e: ImaginedEntity, id: EntityId): nat {
    (if e.preferredId == Some(id) then 0 else 24 + |e.key|) + (if e.name.Some? then 0 else 8 + |e.key|)
    + (if e.transform.Some? then 0 else 8 + |e.key|) + (if e.material.Some? then 0 else 8 + |e.key|)
  }

  function ExplanationBytes(es: seq<ImaginedEntity>, base: seq<EntityPlan>): nat
    requires |base| <= |es|
  {
    if base == [] then 0
    else ExplanationBytes(es, base[..|base| - 1]) + EntityExplanationBytes(es[|base| - 1], base[|base| - 1].entityId)
  }

  /** The total of `g` over the first `n` constraints that the scene violates. */
  function ViolationSum(im: Imagination, scene: SceneView, n: nat, g: nat -> nat): nat
    requires n <= |im.constraints|
  {
    if n == 0 then 0
    else ViolationSum(im, scene, n - 1, g) + if ConstraintHolds(scene, im.constraints[n - 1]) then 0 else g(n - 1)
  }

  /** What each relation fails with, if it does. */
  type Codes = nat -> Option<UnresolvedCode>

  ghost function CodesOf(pf: Platform, im: Imagination, scene: SceneView): Codes {
    (i: nat) => if i < |im.relations| then FinalCode(pf, im, scene, i) else None
  }

  /** The total of `g` over the first `n` relations that fail. */
  function FailureSum(codes: Codes, n: nat, g: (UnresolvedCode, nat) -> nat): nat {
    if n == 0 then 0
    else FailureSum(codes, n - 1, g) + match codes(n - 1) case None => 0 case Some(code) => g(code, n - 1)
  }

  /** Both keys of relation `i`. */
  function KeysAt(im: Imagination, i: nat): nat { if i < |im.relations| then RelationText(im.relations[i]) else 0 }

  /** 34 bytes for each violated constraint. */
  function ViolationBytes(im: Imagination, scene: SceneView): nat {
    ViolationSum(im, scene, |im.constraints|, (i: nat) => 34)
  }

  /** 18 bytes and both keys for each failing relation. */
  ghost function FailureBytes(pf: Platform, im: Imagination, scene: SceneView): nat {
    FailureSum(CodesOf(pf, im, scene), |im.relations|, (code: UnresolvedCode, i: nat) => 18 + KeysAt(im, i))
  }

  /** The logical size of a problem report, from the request, its scene and the planned identities. */
  ghost function ProblemBytes(pf: Platform, im: Imagination, scene: SceneView, base: seq<EntityPlan>): nat
    requires |base| <= |KeyOrder(im)|
  {
    35 + ExplanationBytes(KeyOrder(im), base) + ViolationBytes(im, scene) + FailureBytes(pf, im, scene)
  }

  lemma SumOptional<T>(some: bool, x: T, f: T -> nat)
    ensures Sum(if some then [] else [x], f) == if some then 0 else f(x)
  {
    assert [x][1..] == [];
  }

  /** The total over the explanations of one entity, one by one. */
  lemma {:induction false} EntityDecisionsTotal(e: ImaginedEntity, id: EntityId, f: Decision -> nat)
    ensures Sum(EntityDecisions(e, id), f) == (if e.preferredId == Some(id) then 0 else f(IdDecision(e, id)))
      + (if e.name.Some? then 0 else f(Decision(DefaultName, e.key, None, None)))
      + (if e.transform.Some? then 0 else f(Decision(DefaultTransform, e.key, None, None)))
      + (if e.material.Some? then 0 else f(Decision(DefaultMaterial, e.key, None, None)))
  {
    var i := if e.preferredId == Some(id) then [] else [IdDecision(e, id)];
    var n := if e.name.Some? then [] else [Decision(DefaultName, e.key, None, None)];
    var t := if e.transform.Some? then [] else [Decision(DefaultTransform, e.key, None, None)];
    var m := if e.material.Some? then [] else [Decision(DefaultMaterial, e.key, None, None)];
    SumAppend(i, n + t + m, f);
    SumAppend(n + t, m, f);
    SumAppend(n, t, f);
    SumOptional(e.preferredId == Some(id), IdDecision(e, id), f);
    SumOptional(e.name.Some?, Decision(DefaultName, e.key, None, None), f);
    SumOptional(e.transform.Some?, Decision(DefaultTransform, e.key, None, None), f);
    SumOptional(e.material.Some?, Decision(DefaultMaterial, e.key, None, None), f);
  }

  lemma {:induction false} Explanations(es: seq<ImaginedEntity>, base: seq<EntityPlan>)
    requires |base| <= |es|
    ensures Sum(PlanDecisions(es, base), DecisionBytes) == ExplanationBytes(es, base)
  {
    if base != [] {
      var n := |base| - 1;
      Explanations(es, base[..n]);
      EntityDecisionsTotal(es[n], base[n].entityId, DecisionBytes);
      SumAppend(PlanDecisions(es, base[..n]), EntityDecisions(es[n], base[n].entityId), DecisionBytes);
    }
  }

  lemma {:induction false} ViolationsTotal(
    im: Imagination, scene: SceneView, n: nat, f: Unresolved -> nat, g: nat -> nat)
    requires n <= |im.constraints|
    requires forall c: Constraint, i: nat :: f(ConstraintIssue(c, i)) == g(i)
    ensures Sum(ConstraintIssues(im, scene, n), f) == ViolationSum(im, scene, n, g)
  {
    if n > 0 {
      var before, last := ConstraintIssues(im, scene, n - 1), ConstraintIssue(im.constraints[n - 1], n - 1);
      ViolationsTotal(im, scene, n - 1, f, g);
      SumPush(before, last, f);
      assert before + [] == before;
    }
  }

  ghost function EntriesOf(im: Imagination, codes: Codes, n: nat): seq<Unresolved>
    requires n <= |im.relations|
  {
    if n == 0 then []
    else
      EntriesOf(im, codes, n - 1) + match codes(n - 1) case None => [] case Some(c) => [RelationIssue(im, c, n - 1)]
  }

  lemma {:induction false} ProblemsAreEntries(pf: Platform, im: Imagination, scene: SceneView, n: nat)
    requires n <= |im.relations|
    ensures RelationProblems(pf, im, scene, n) == EntriesOf(im, CodesOf(pf, im, scene), n)
  {
    if n > 0 { ProblemsAreEntries(pf, im, scene, n - 1); }
  }

  lemma {:induction false} FailuresTotal(
    im: Imagination, codes: Codes, n: nat, f: Unresolved -> nat, g: (UnresolvedCode, nat) -> nat)
    requires n <= |im.relations|
    requires forall code: UnresolvedCode, i: nat | i < |im.relations| :: f(RelationIssue(im, code, i)) == g(code, i)
    ensures Sum(EntriesOf(im, codes, n), f) == FailureSum(codes, n, g)
  {
    if n > 0 {
      var before := EntriesOf(im, codes, n - 1);
      FailuresTotal(im, codes, n - 1, f, g);
      match codes(n - 1)
      case None => assert before + [] == before;
      case Some(code) => SumPush(before, RelationIssue(im, code, n - 1), f);
    }
  }

  lemma {:induction false} ProblemsTotal(
    pf: Platform, im: Imagination, scene: SceneView, f: Unresolved -> nat, v: nat -> nat,
    g: (UnresolvedCode, nat) -> nat)
    requires forall c: Constraint, i: nat :: f(ConstraintIssue(c, i)) == v(i)
    requires forall code: UnresolvedCode, i: nat | i < |im.relations| :: f(RelationIssue(im, code, i)) == g(code, i)
    ensures Sum(Problems(pf, im, scene), f) ==
      ViolationSum(im, scene, |im.constraints|, v) + FailureSum(CodesOf(pf, im, scene), |im.relations|, g)
  {
    ViolationsTotal(im, scene, |im.constraints|, f, v);
    ProblemsAreEntries(pf, im, scene, |im.relations|);
    FailuresTotal(im, CodesOf(pf, im, scene), |im.relations|, f, g);
    SumAppend(ConstraintIssues(im, scene, |im.constraints|), RelationProblems(pf, im, scene, |im.relations|), f);
  }

  /** The entries of a problem report take exactly what the request and the scene say. */
  lemma {:induction false} ProblemBytesExact(pf: Platform, im: Imagination, scene: SceneView, base: seq<EntityPlan>)
    requires |base| <= |KeyOrder(im)|
    ensures ProblemBytes(pf, im, scene, base) ==
      35 + Sum(PlanDecisions(KeyOrder(im), base), DecisionBytes) + Sum(Problems(pf, im, scene), UnresolvedBytes)
  {
    Explanations(KeyOrder(im), base);
    ProblemsTotal(pf, im, scene, UnresolvedBytes, (i: nat) => 34,
      (code: UnresolvedCode, i: nat) => 18 + KeysAt(im, i));
  }

  lemma {:induction false} EntitySizes(es: seq<ImaginedEntity>)
    ensures Sum(es, EntityCreateBytes) >= 106 * |es| && Sum(es, EntityBytes) >= 32 * |es|
  {
    if es != [] { EntitySizes(es[1..]); }
  }

  lemma {:induction false} RelationSizes(rs: seq<Relation>)
    ensures Sum(rs, RelationBytes) >= 9 * |rs|
  {
    if rs != [] { RelationSizes(rs[1..]); }
  }

  /** What admission already demands of the decoded-size limit pays for what the saturated count limits do not. */
  lemma {:induction false} ProblemArithmetic(limits: RuntimeLimits, text: nat, e: nat, r: nat, c: nat, size: nat)
    requires Sat64(text) <= limits.maxTextBytes && r <= limits.maxImaginationRelations
      && c <= limits.maxImaginationConstraints
    requires Sat64(106 * e) <= limits.maxDecodedBytes && Sat64(32 * e + 9 * r + 17 * c) <= limits.maxDecodedBytes
    requires size <= 35 + 5 * text + 48 * e + 18 * r + 34 * c
    ensures Sat64(size) <= DerivedLimits(limits).maxDecodedBytes
  {
    var u := DerivedLimits(limits).maxUnresolvedConstraints;
    assert u == U32_MAX || u >= r + c;
  }

  /**
   * The derived limits admit a problem report exactly when its logical size fits the derived size limit, which no
   * other check anticipates. They do so whenever relations and constraints can each be counted in 32 bits.
   */
  lemma {:induction false} ProblemsAdmittedIff(
    pf: Platform, im: Imagination, scene: SceneView, attempts: nat, base: seq<EntityPlan>, limits: RuntimeLimits)
    requires ValidateImagination(im, limits).None? && im.DistinctKeys()
    requires |base| == |KeyOrder(im)| && !Compilable(pf, im, scene)
    ensures ValidateResult(ProblemReport(im, scene, PlanDecisions(KeyOrder(im), base), Problems(pf, im, scene)),
              DerivedLimits(limits)) ==
      (if Sat64(ProblemBytes(pf, im, scene, base)) <= DerivedLimits(limits).maxDecodedBytes then None
       else Some(ReportSizeLimitExceeded))
    ensures |im.relations| <= U32_MAX && |im.constraints| <= U32_MAX ==>
      Sat64(ProblemBytes(pf, im, scene, base)) <= DerivedLimits(limits).maxDecodedBytes
  {
    var r := ProblemReport(im, scene, PlanDecisions(KeyOrder(im), base), Problems(pf, im, scene));
    NoProblemsIffCompilable(pf, im, scene);
    ProblemsBounded(pf, im, scene, attempts, base);
    ProblemsShape(pf, im, scene);
    SortedProblems(Problems(pf, im, scene));
    BoundedIsAdmittedIff(im, limits, r);
    ProblemReportBytes(pf, im, scene, base);
    if |im.relations| <= U32_MAX && |im.constraints| <= U32_MAX { ProblemsFit(pf, im, scene, base, limits); }
  }

  lemma {:induction false} ProblemReportBytes(pf: Platform, im: Imagination, scene: SceneView, base: seq<EntityPlan>)
    requires im.DistinctKeys() && |base| == |KeyOrder(im)|
    ensures ProblemReport(im, scene, PlanDecisions(KeyOrder(im), base), Problems(pf, im, scene)).LogicalBytes()
            == ProblemBytes(pf, im, scene, base)
  {
    KeyOrderStrict(im);
    PlanDecisionsShape(KeyOrder(im), base);
    ProblemsShape(pf, im, scene);
    ProblemBytesExact(pf, im, scene, base);
    SortedReportBytes(im, scene, PlanDecisions(KeyOrder(im), base), Problems(pf, im, scene));
  }

  lemma {:induction false} SortedReportBytes(im: Imagination, scene: SceneView, ds: seq<Decision>, us: seq<Unresolved>)
    requires Distinguished(ds) && forall d | d in ds :: DecisionShape(d)
    requires NoDuplicates(us) && forall u | u in us :: UnresolvedShape(u)
    ensures ProblemReport(im, scene, ds, us).LogicalBytes() == 35 + Sum(ds, DecisionBytes) + Sum(us, UnresolvedBytes)
  {
    SortedDecisions(ds);
    SortedProblems(us);
    SumOfPermutation(SortBy(us, UnresolvedCmp), us, UnresolvedBytes);
  }

  lemma {:induction false} ProblemsFit(
    pf: Platform, im: Imagination, scene: SceneView, base: seq<EntityPlan>, limits: RuntimeLimits)
    requires ValidateImagination(im, limits).None? && im.DistinctKeys() && |base| == |KeyOrder(im)|
    requires |im.relations| <= U32_MAX && |im.constraints| <= U32_MAX
    ensures Sat64(ProblemBytes(pf, im, scene, base)) <= DerivedLimits(limits).maxDecodedBytes
  {
    ProblemSize(pf, im, scene, base);
    AdmittedSizes(im, limits);
    ProblemArithmetic(limits, im.TextBytes(), |im.entities|, |im.relations|, |im.constraints|,
      ProblemBytes(pf, im, scene, base));
  }

  lemma {:induction false} ProblemSize(pf: Platform, im: Imagination, scene: SceneView, base: seq<EntityPlan>)
    requires im.DistinctKeys() && |base| == |KeyOrder(im)|
    ensures ProblemBytes(pf, im, scene, base) <=
      35 + 5 * im.TextBytes() + 48 * |im.entities| + 18 * |im.relations| + 34 * |im.constraints|
  {
    KeyTotals(im);
    PlanDecisionsText(KeyOrder(im), base);
    PlanDecisionsBytes(KeyOrder(im), base);
    assert KeyOrder(im)[..|base|] == KeyOrder(im);
    ProblemsShape(pf, im, scene);
    ProblemsBytes(pf, im, scene);
    ProblemBytesExact(pf, im, scene, base);
  }

  /** What an admitted request says about the limits that admitted it. */
  lemma {:induction false} AdmittedSizes(im: Imagination, limits: RuntimeLimits)
    requires ValidateImagination(im, limits).None? && |im.relations| <= U32_MAX && |im.constraints| <= U32_MAX
    ensures Sat64(im.TextBytes()) <= limits.maxTextBytes && Sat64(106 * |im.entities|) <= limits.maxDecodedBytes
    ensures |im.relations| <= limits.maxImaginationRelations && |im.constraints| <= limits.maxImaginationConstraints
    ensures Sat64(32 * |im.entities| + 9 * |im.relations| + 17 * |im.constraints|) <= limits.maxDecodedBytes
  {
    EntitySizes(im.entities);
    RelationSizes(im.relations);
    assert CheckCollections(im, limits).None? && CheckPatchBudget(im.declaredBudget.patch, limits).None?;
    assert CheckEntitiesAndOutput(im, limits).None?;
  }
}
