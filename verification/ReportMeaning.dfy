/** What a compilation report says, in the terms of the request and the scene (compiler.rs). */
module ReportMeaning {
  import opened Machine
  import opened Ordering
  import opened Protocol
  import opened CompilationReport
  import opened Planning
  import opened Issues
  import opened Acceptance
  import opened Emission
  import opened CompiledPatch
  import opened EncodedBytes
  import opened Compiler

  lemma {:induction false} LastChoice(es: seq<ImaginedEntity>, base: seq<EntityPlan>, n: nat, d: Decision)
    requires n < |base| <= |es|
    ensures d in PlanDecisions(es, base[..n + 1]) <==>
      d in PlanDecisions(es, base[..n]) || Explains(es[n], base[n].entityId, d)
  {
    EntityDecisionsExactly(es[n], base[n].entityId, d);
    assert base[..n + 1][..n] == base[..n];
    assert PlanDecisions(es, base[..n + 1]) == PlanDecisions(es, base[..n]) + EntityDecisions(es[n], base[n].entityId);
  }

  lemma {:induction false} PlanDecisionsExactly(es: seq<ImaginedEntity>, base: seq<EntityPlan>, d: Decision)
    requires |base| <= |es|
    ensures d in PlanDecisions(es, base) <==> exists x | 0 <= x < |base| :: Explains(es[x], base[x].entityId, d)
  {
    var lists := (n: nat) => if n <= |base| then PlanDecisions(es, base[..n]) else [];
    var adds := (n: nat) => n < |base| && Explains(es[n], base[n].entityId, d);
    forall n: nat | n < |base| ensures d in lists(n + 1) <==> d in lists(n) || adds(n) { LastChoice(es, base, n, d); }
    ListedExactly(lists, adds, |base|, d);
    assert base[..|base|] == base;
    if x :| 0 <= x < |base| && Explains(es[x], base[x].entityId, d) { assert adds(x); }
    if n: nat :| n < |base| && adds(n) { assert Explains(es[n], base[n].entityId, d); }
  }

  /** `d` explains a choice made for one of the entities. */
  ghost predicate ChoiceExplained(im: Imagination, base: seq<EntityPlan>, d: Decision)
    requires |base| <= |KeyOrder(im)|
  {
    exists x | 0 <= x < |base| :: Explains(KeyOrder(im)[x], base[x].entityId, d)
  }

  /** `d` says that one of the relations was applied. */
  ghost predicate RelationExplained(im: Imagination, d: Decision) {
    exists i | 0 <= i < |im.relations| :: d == AppliedDecision(im, i)
  }

  lemma {:induction false} SortedKeeps(ds: seq<Decision>, d: Decision)
    ensures d in SortBy(ds, DecisionCmp) <==> d in ds
  {
    DecisionOrder();
    SortBySorts(ds, DecisionCmp);
    assert d in Elements(SortBy(ds, DecisionCmp)) <==> d in Elements(ds);
  }

  lemma {:induction false} AppliedAreRelations(im: Imagination, d: Decision)
    ensures d in AppliedDecisions(im) <==> RelationExplained(im, d)
  {
    if i :| 0 <= i < |im.relations| && d == AppliedDecision(im, i) { assert AppliedDecisions(im)[i] == d; }
  }

  /**
   * The decisions of a report are exactly the choices the compiler made for entities and, if there is a patch, one
   * for each relation.
   */
  lemma {:induction false} ReportExplains(
    pf: Platform, im: Imagination, scene: SceneView, attempts: nat, base: seq<EntityPlan>, plans: seq<EntityPlan>,
    r: CompilationResult, d: Decision)
    requires Reports(pf, im, scene, attempts, base, plans, r)
    ensures d in r.decisions <==>
      ChoiceExplained(im, base, d) || (Compilable(pf, im, scene) && RelationExplained(im, d))
  {
    var choices := PlanDecisions(KeyOrder(im), base);
    PlanDecisionsExactly(KeyOrder(im), base, d);
    SortedKeeps(choices, d);
    if Compilable(pf, im, scene) {
      SortedKeeps(choices + RelationDecisions(plans), d);
      AppliedExactly(pf, im, scene, attempts, base, plans, d);
      AppliedAreRelations(im, d);
    }
  }

  /** The unresolved entries of a report are exactly one for each violated constraint and each failing relation. */
  lemma {:induction false} ReportLists(
    pf: Platform, im: Imagination, scene: SceneView, attempts: nat, base: seq<EntityPlan>, plans: seq<EntityPlan>,
    r: CompilationResult, u: Unresolved)
    requires Reports(pf, im, scene, attempts, base, plans, r)
    ensures u in r.unresolved <==>
      || (exists i | 0 <= i < |im.constraints| :: Violated(im, scene, i, u))
      || (exists i :: 0 <= i < |im.relations| && HasProblem(pf, im, scene, i, u))
  {
    var problems := Problems(pf, im, scene);
    NoProblemsIffCompilable(pf, im, scene);
    ConstraintIssuesExact(im, scene, |im.constraints|, u);
    RelationProblemsExact(pf, im, scene, |im.relations|, u);
    UnresolvedOrder();
    SortBySorts(problems, UnresolvedCmp);
    assert u in Elements(SortBy(problems, UnresolvedCmp)) <==> u in Elements(problems);
  }

  /** A report names its request and its scene, and carries the patch of the final plans exactly when it compiles. */
  lemma {:induction false} ReportCarriesRequest(
    pf: Platform, im: Imagination, scene: SceneView, attempts: nat, base: seq<EntityPlan>, plans: seq<EntityPlan>,
    r: CompilationResult)
    requires Reports(pf, im, scene, attempts, base, plans, r)
    ensures r.schemaVersion == 1 && r.imaginationId == im.imaginationId && r.sceneRevision == scene.revision
    ensures r.patch == if Compilable(pf, im, scene) then Some(PatchOf(im, plans)) else None
    ensures Compilable(pf, im, scene) ==> Compiled(pf, im, scene, attempts, base, plans)
  {
  }
}
