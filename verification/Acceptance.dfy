/** When an imagination compiles, stated without reference to the compiler's passes (compiler.rs). */
module Acceptance {
  import opened Machine
  import opened Ordering
  import opened FunctionalGraph
  import opened Protocol
  import opened CompilationReport
  import opened Planning
  import opened Relations
  import opened Placements
  import opened Issues

  ghost predicate Clean(im: Imagination, scene: SceneView) {
    && (forall c | c in im.constraints :: ConstraintHolds(scene, c))
    && (forall i | 0 <= i < |im.relations| :: StaticCode(im, i).None?)
  }

  lemma {:induction false} NoStaticIssueIsAcyclic(im: Imagination)
    requires forall i | 0 <= i < |im.relations| :: StaticCode(im, i).None?
    ensures Acyclic(ParentGraph(im)) && Acyclic(PlacementGraph(im))
  {
    forall k | k in ParentGraph(im) ensures !OnCycle(ParentGraph(im), k) {
      OwnerIsFirst(im, k, |im.relations|);
      assert StaticCode(im, FinalOwner(im, k).value).None?;
    }
    forall k | k in PlacementGraph(im) ensures !OnCycle(PlacementGraph(im), k) {
      OwnerIsFirst(im, k, |im.relations|);
      assert StaticCode(im, FinalOwner(im, k).value).None?;
    }
  }

  /** The failure of relation `i` itself, once the graph is known to be acyclic. */
  ghost function PlacementCode(pf: Platform, im: Imagination, i: nat): Option<UnresolvedCode>
    requires i < |im.relations| && Acyclic(PlacementGraph(im))
  {
    var k := im.relations[i].Subject();
    if k in Keys(im) && Placed(pf, im, k).Err? && Placed(pf, im, k).error.relationIndex == i
    then Some(Placed(pf, im, k).error.code) else None
  }

  /** The one problem, if any, that the compiler reports for relation `i`. */
  ghost function FinalCode(pf: Platform, im: Imagination, scene: SceneView, i: nat): Option<UnresolvedCode>
    requires i < |im.relations|
  {
    if Clean(im, scene) then (NoStaticIssueIsAcyclic(im); PlacementCode(pf, im, i)) else StaticCode(im, i)
  }

  ghost function RelationProblems(pf: Platform, im: Imagination, scene: SceneView, n: nat): seq<Unresolved>
    requires n <= |im.relations|
  {
    if n == 0 then []
    else
      RelationProblems(pf, im, scene, n - 1)
      + (match FinalCode(pf, im, scene, n - 1) case None => [] case Some(c) => [RelationIssue(im, c, n - 1)])
  }

  /** Everything the compiler reports, one entry per violated constraint or failing relation. */
  ghost function Problems(pf: Platform, im: Imagination, scene: SceneView): seq<Unresolved> {
    ConstraintIssues(im, scene, |im.constraints|) + RelationProblems(pf, im, scene, |im.relations|)
  }

  /** Relations are well formed, with distinct subjects, unparented anchors and no cycle. */
  ghost predicate WellRelated(im: Imagination) {
    && (forall i | 0 <= i < |im.relations| :: WellFormed(im, i))
    && (forall i, j | 0 <= i < j < |im.relations| :: im.relations[i].Subject() != im.relations[j].Subject())
    && (forall i, j | 0 <= i < |im.relations| && 0 <= j < |im.relations| ::
          !im.relations[i].Parent? && im.relations[j].Parent? ==> im.relations[i].Target() != im.relations[j].Subject())
    && Acyclic(ParentGraph(im)) && Acyclic(PlacementGraph(im))
  }

  /** The condition a caller can check: it mentions only the request and the scene. */
  ghost predicate Compilable(pf: Platform, im: Imagination, scene: SceneView) {
    && (forall c | c in im.constraints :: ConstraintHolds(scene, c)) && WellRelated(im)
    && (forall k | k in Keys(im) :: Placed(pf, im, k).Ok?)
  }

  /** With one relation per subject, the graphs are the relations themselves. */
  lemma {:induction false} GraphsAreRelations(im: Imagination, i: nat)
    requires i < |im.relations| && WellFormed(im, i)
    requires forall a, b | 0 <= a < b < |im.relations| :: im.relations[a].Subject() != im.relations[b].Subject()
    ensures AssignCode(im, i).None? && FinalOwner(im, im.relations[i].Subject()) == Some(i)
    ensures im.relations[i].Parent? ==>
      var k := im.relations[i].Subject(); k in ParentGraph(im) && ParentGraph(im)[k] == im.relations[i].Target()
    ensures !im.relations[i].Parent? ==>
      var k := im.relations[i].Subject(); k in PlacementGraph(im) && PlacementGraph(im)[k] == im.relations[i].Target()
  {
    OwnerIsFirst(im, im.relations[i].Subject(), i);
    OwnsItsSubject(im, i);
  }

  /** A conflict at assignment means an earlier relation has the same subject. */
  lemma {:induction false} AssignedMeansDistinct(im: Imagination)
    requires forall i | 0 <= i < |im.relations| :: AssignCode(im, i).None?
    ensures forall i | 0 <= i < |im.relations| :: WellFormed(im, i)
    ensures forall i, j | 0 <= i < j < |im.relations| :: im.relations[i].Subject() != im.relations[j].Subject()
  {
    forall i | 0 <= i < |im.relations| ensures WellFormed(im, i) {
      OwnsItsSubject(im, i);
    }
    forall i, j | 0 <= i < j < |im.relations| ensures im.relations[i].Subject() != im.relations[j].Subject() {
      OwnsItsSubject(im, i);
      OwnsItsSubject(im, j);
    }
  }

  lemma {:induction false} NoStaticIssueIsWellRelated(im: Imagination)
    requires forall i | 0 <= i < |im.relations| :: StaticCode(im, i).None?
    ensures WellRelated(im)
  {
    var rs := im.relations;
    forall i | 0 <= i < |rs| ensures AssignCode(im, i).None? { assert StaticCode(im, i).None?; }
    AssignedMeansDistinct(im);
    NoStaticIssueIsAcyclic(im);
    forall i, j | 0 <= i < |rs| && 0 <= j < |rs| && !rs[i].Parent? && rs[j].Parent?
      ensures rs[i].Target() != rs[j].Subject()
    {
      GraphsAreRelations(im, j);
      assert StaticCode(im, i).None?;
    }
  }

  lemma {:induction false} WellRelatedHasNoIssue(im: Imagination, i: nat)
    requires WellRelated(im) && i < |im.relations|
    ensures StaticCode(im, i).None?
  {
    var rs := im.relations;
    GraphsAreRelations(im, i);
    if rs[i].Target() in ParentGraph(im) {
      OwnerIsFirst(im, rs[i].Target(), |rs|);
      assert rs[FinalOwner(im, rs[i].Target()).value].Subject() == rs[i].Target();
    }
  }

  /** No static issue, exactly when constraints hold and the relations are well formed, unshared and acyclic. */
  lemma {:induction false} CleanMeans(im: Imagination, scene: SceneView)
    ensures Clean(im, scene) <==>
      (forall c | c in im.constraints :: ConstraintHolds(scene, c)) && WellRelated(im)
  {
    if forall i | 0 <= i < |im.relations| :: StaticCode(im, i).None? { NoStaticIssueIsWellRelated(im); }
    if WellRelated(im) {
      forall i | 0 <= i < |im.relations| ensures StaticCode(im, i).None? { WellRelatedHasNoIssue(im, i); }
    }
  }

  lemma {:induction false} ConstraintIssuesEmpty(im: Imagination, scene: SceneView, n: nat)
    requires n <= |im.constraints|
    ensures ConstraintIssues(im, scene, n) == [] <==> forall i | 0 <= i < n :: ConstraintHolds(scene, im.constraints[i])
  {
    if n > 0 { ConstraintIssuesEmpty(im, scene, n - 1); }
  }

  lemma {:induction false} RelationProblemsEmpty(pf: Platform, im: Imagination, scene: SceneView, n: nat)
    requires n <= |im.relations|
    ensures RelationProblems(pf, im, scene, n) == [] <==> forall i | 0 <= i < n :: FinalCode(pf, im, scene, i).None?
  {
    if n > 0 { RelationProblemsEmpty(pf, im, scene, n - 1); }
  }

  /** All placements succeed exactly when no relation fails by itself. */
  lemma {:induction false} PlacedEverywhere(pf: Platform, im: Imagination)
    requires Acyclic(PlacementGraph(im))
    ensures (forall k | k in Keys(im) :: Placed(pf, im, k).Ok?) <==>
      forall i | 0 <= i < |im.relations| :: PlacementCode(pf, im, i).None?
  {
    if i :| 0 <= i < |im.relations| && PlacementCode(pf, im, i).Some? {
      assert Placed(pf, im, im.relations[i].Subject()).Err?;
    }
    if k :| k in Keys(im) && Placed(pf, im, k).Err? {
      FailureSubjectPlaced(pf, im, k);
      var f := Placed(pf, im, k).error;
      OwnerIsFirst(im, f.subject, |im.relations|);
      assert PlacementCode(pf, im, f.relationIndex).Some?;
    }
  }

  /** Without static issues only placements can fail. */
  lemma {:induction false} CleanProblems(pf: Platform, im: Imagination, scene: SceneView)
    requires Clean(im, scene)
    ensures Acyclic(PlacementGraph(im))
    ensures (forall i | 0 <= i < |im.relations| :: FinalCode(pf, im, scene, i).None?) <==>
      forall k | k in Keys(im) :: Placed(pf, im, k).Ok?
  {
    NoStaticIssueIsAcyclic(im);
    PlacedEverywhere(pf, im);
    forall i | 0 <= i < |im.relations| ensures FinalCode(pf, im, scene, i) == PlacementCode(pf, im, i) {}
  }

  /** A static issue is reported. */
  lemma {:induction false} UncleanProblems(pf: Platform, im: Imagination, scene: SceneView)
    requires !Clean(im, scene) && forall i | 0 <= i < |im.constraints| :: ConstraintHolds(scene, im.constraints[i])
    ensures exists i :: 0 <= i < |im.relations| && FinalCode(pf, im, scene, i).Some?
  {
    assert forall c | c in im.constraints :: ConstraintHolds(scene, c);
    var i :| 0 <= i < |im.relations| && StaticCode(im, i).Some?;
    assert FinalCode(pf, im, scene, i).Some?;
  }

  /** Nothing is reported exactly when the imagination is compilable in the scene. */
  lemma {:induction false} NoProblemsIffCompilable(pf: Platform, im: Imagination, scene: SceneView)
    ensures Problems(pf, im, scene) == [] <==> Compilable(pf, im, scene)
  {
    ConstraintIssuesEmpty(im, scene, |im.constraints|);
    RelationProblemsEmpty(pf, im, scene, |im.relations|);
    CleanMeans(im, scene);
    if Clean(im, scene) {
      CleanProblems(pf, im, scene);
    } else if forall i | 0 <= i < |im.constraints| :: ConstraintHolds(scene, im.constraints[i]) {
      UncleanProblems(pf, im, scene);
    }
  }

  // ----- the list has no repetitions and legal shapes -----

  ghost predicate HasProblem(pf: Platform, im: Imagination, scene: SceneView, i: nat, u: Unresolved) {
    i < |im.relations| && FinalCode(pf, im, scene, i).Some?
    && u == RelationIssue(im, FinalCode(pf, im, scene, i).value, i)
  }

  /** The last relation contributes exactly its own problem. */
  lemma {:induction false} LastProblem(pf: Platform, im: Imagination, scene: SceneView, n: nat, u: Unresolved)
    requires 0 < n <= |im.relations|
    ensures u in RelationProblems(pf, im, scene, n) <==>
      u in RelationProblems(pf, im, scene, n - 1) || HasProblem(pf, im, scene, n - 1, u)
  {
  }

  lemma {:induction false} ListedExactly<T>(lists: nat -> seq<T>, adds: nat -> bool, n: nat, x: T)
    requires lists(0) == [] && forall i: nat | i < n :: x in lists(i + 1) <==> x in lists(i) || adds(i)
    ensures x in lists(n) <==> exists i: nat :: i < n && adds(i)
  {
    if n > 0 {
      ListedExactly(lists, adds, n - 1, x);
      assert x in lists(n - 1 + 1) <==> x in lists(n - 1) || adds(n - 1);
    }
  }

  ghost function ProblemLists(pf: Platform, im: Imagination, scene: SceneView): nat -> seq<Unresolved> {
    (i: nat) => if i <= |im.relations| then RelationProblems(pf, im, scene, i) else []
  }

  ghost function ProblemAdds(pf: Platform, im: Imagination, scene: SceneView, u: Unresolved): nat -> bool {
    (i: nat) => HasProblem(pf, im, scene, i, u)
  }

  lemma {:induction false} ProblemStep(pf: Platform, im: Imagination, scene: SceneView, i: nat, u: Unresolved)
    requires i < |im.relations|
    ensures u in ProblemLists(pf, im, scene)(i + 1) <==>
      u in ProblemLists(pf, im, scene)(i) || ProblemAdds(pf, im, scene, u)(i)
  {
    LastProblem(pf, im, scene, i + 1, u);
  }

  lemma {:induction false} ProblemsAdded(pf: Platform, im: Imagination, scene: SceneView, n: nat, u: Unresolved)
    requires n <= |im.relations|
    ensures u in ProblemLists(pf, im, scene)(n) <==> exists i: nat :: i < n && ProblemAdds(pf, im, scene, u)(i)
  {
    var lists, adds := ProblemLists(pf, im, scene), ProblemAdds(pf, im, scene, u);
    forall i: nat | i < n ensures u in lists(i + 1) <==> u in lists(i) || adds(i) { ProblemStep(pf, im, scene, i, u); }
    ListedExactly(lists, adds, n, u);
  }

  lemma {:induction false} RelationProblemsExact(pf: Platform, im: Imagination, scene: SceneView, n: nat, u: Unresolved)
    requires n <= |im.relations|
    ensures u in RelationProblems(pf, im, scene, n) <==> exists i :: 0 <= i < n && HasProblem(pf, im, scene, i, u)
  {
    ProblemsAdded(pf, im, scene, n, u);
    var adds := ProblemAdds(pf, im, scene, u);
    if i :| 0 <= i < n && HasProblem(pf, im, scene, i, u) { assert adds(i); }
    if i: nat :| i < n && adds(i) { assert HasProblem(pf, im, scene, i, u); }
  }

  /** The codes a relation can be given. */
  ghost predicate RelationCode(c: UnresolvedCode) { !c.RequiredEntityMissing? && !c.RequiredEntityPresent? }

  lemma {:induction false} PlacedCode(pf: Platform, im: Imagination, k: Text)
    requires Acyclic(PlacementGraph(im)) && k in Keys(im) && Placed(pf, im, k).Err?
    ensures RelationCode(Placed(pf, im, k).error.code)
    decreases Height(PlacementGraph(im), k)
  {
    var g := PlacementGraph(im);
    PlacementGraphClosed(im, k);
    HeightDecreases(g, k);
    if Placed(pf, im, g[k]).Err? { PlacedCode(pf, im, g[k]); }
  }

  lemma {:induction false} FinalCodeIsRelationCode(pf: Platform, im: Imagination, scene: SceneView, i: nat)
    requires i < |im.relations| && FinalCode(pf, im, scene, i).Some?
    ensures RelationCode(FinalCode(pf, im, scene, i).value)
  {
    if Clean(im, scene) {
      NoStaticIssueIsAcyclic(im);
      PlacedCode(pf, im, im.relations[i].Subject());
    }
  }

  /** A legal relation entry about one of the first `n` relations. */
  ghost predicate EntryBelow(u: Unresolved, n: nat) {
    UnresolvedShape(u) && u.relationIndex.Some? && u.relationIndex.value < n
  }

  /** `after` is `before`, or adds one legal entry about relation `n` with no more text than that relation. */
  ghost predicate GrowsBy(before: seq<Unresolved>, after: seq<Unresolved>, n: nat, r: Relation) {
    || after == before
    || (|after| == |before| + 1 && after[..|before|] == before
        && UnresolvedShape(after[|before|]) && after[|before|].relationIndex == Some(n)
        && UnresolvedText(after[|before|]) == RelationText(r))
  }

  lemma {:induction false} RelationProblemsStep(pf: Platform, im: Imagination, scene: SceneView, n: nat)
    requires n < |im.relations|
    ensures GrowsBy(RelationProblems(pf, im, scene, n), RelationProblems(pf, im, scene, n + 1), n, im.relations[n])
  {
    var before, after := RelationProblems(pf, im, scene, n), RelationProblems(pf, im, scene, n + 1);
    if FinalCode(pf, im, scene, n).Some? {
      FinalCodeIsRelationCode(pf, im, scene, n);
      assert after == before + [RelationIssue(im, FinalCode(pf, im, scene, n).value, n)];
    } else {
      assert after == before;
    }
  }

  ghost predicate EntriesBelow(us: seq<Unresolved>, n: nat) {
    |us| <= n && NoDuplicates(us) && forall u | u in us :: EntryBelow(u, n)
  }

  lemma {:induction false} GrowthKeepsEntries(before: seq<Unresolved>, after: seq<Unresolved>, n: nat, r: Relation)
    requires EntriesBelow(before, n) && GrowsBy(before, after, n, r)
    ensures EntriesBelow(after, n + 1)
  {
    if after != before {
      assert after == before + [after[|before|]];
      assert forall i | 0 <= i < |before| :: before[i] in before;
    }
  }

  ghost predicate TextWithin(us: seq<Unresolved>, rs: seq<Relation>) {
    Sum(us, UnresolvedText) <= Sum(rs, RelationText)
  }

  lemma {:induction false} GrowthKeepsText(before: seq<Unresolved>, after: seq<Unresolved>, n: nat, rs: seq<Relation>)
    requires n < |rs| && GrowsBy(before, after, n, rs[n]) && TextWithin(before, rs[..n])
    ensures TextWithin(after, rs[..n + 1])
  {
    SumTake(rs, n, RelationText);
    if after != before {
      assert after == before + [after[|before|]];
      SumPush(before, after[|before|], UnresolvedText);
    }
  }

  /** Lists that grow relation by relation keep legal entries and no text beyond the relations' own. */
  lemma {:induction false} GrownEntries(lists: nat -> seq<Unresolved>, rs: seq<Relation>, n: nat)
    requires n <= |rs| && lists(0) == []
    requires forall i: nat | i < |rs| :: GrowsBy(lists(i), lists(i + 1), i, rs[i])
    ensures EntriesBelow(lists(n), n) && TextWithin(lists(n), rs[..n])
  {
    if n > 0 {
      GrownEntries(lists, rs, n - 1);
      assert GrowsBy(lists(n - 1), lists(n - 1 + 1), n - 1, rs[n - 1]);
      GrowthKeepsEntries(lists(n - 1), lists(n), n - 1, rs[n - 1]);
      GrowthKeepsText(lists(n - 1), lists(n), n - 1, rs);
    }
  }

  lemma {:induction false} RelationProblemsShape(pf: Platform, im: Imagination, scene: SceneView, n: nat)
    requires n <= |im.relations|
    ensures EntriesBelow(RelationProblems(pf, im, scene, n), n)
    ensures TextWithin(RelationProblems(pf, im, scene, n), im.relations[..n])
  {
    var lists := (i: nat) => if i <= |im.relations| then RelationProblems(pf, im, scene, i) else [];
    forall i: nat | i < |im.relations| ensures GrowsBy(lists(i), lists(i + 1), i, im.relations[i]) {
      RelationProblemsStep(pf, im, scene, i);
    }
    GrownEntries(lists, im.relations, n);
  }

  ghost predicate ConstraintEntryBelow(u: Unresolved, n: nat) {
    UnresolvedShape(u) && u.relationIndex.None? && u.constraintIndex.value < n && UnresolvedText(u) == 0
  }

  lemma {:induction false} ConstraintIssuesShape(im: Imagination, scene: SceneView, n: nat)
    requires n <= |im.constraints|
    ensures |ConstraintIssues(im, scene, n)| <= n && NoDuplicates(ConstraintIssues(im, scene, n))
    ensures forall u | u in ConstraintIssues(im, scene, n) :: ConstraintEntryBelow(u, n)
  {
    if n > 0 {
      ConstraintIssuesShape(im, scene, n - 1);
      var before, u := ConstraintIssues(im, scene, n - 1), ConstraintIssue(im.constraints[n - 1], n - 1);
      if ConstraintHolds(scene, im.constraints[n - 1]) {
        assert ConstraintIssues(im, scene, n) == before;
      } else {
        assert ConstraintIssues(im, scene, n) == before + [u];
        assert u !in before;
      }
    }
  }

  /** At most one entry per relation and per constraint, all of legal shape, and no text beyond the relations' own. */
  lemma {:induction false} ProblemsShape(pf: Platform, im: Imagination, scene: SceneView)
    ensures NoDuplicates(Problems(pf, im, scene))
    ensures |Problems(pf, im, scene)| <= |im.relations| + |im.constraints|
    ensures forall u | u in Problems(pf, im, scene) :: UnresolvedShape(u)
    ensures Sum(Problems(pf, im, scene), UnresolvedText) <= Sum(im.relations, RelationText)
  {
    var cs, rs := ConstraintIssues(im, scene, |im.constraints|), RelationProblems(pf, im, scene, |im.relations|);
    ConstraintIssuesShape(im, scene, |im.constraints|);
    RelationProblemsShape(pf, im, scene, |im.relations|);
    SumZero(cs, UnresolvedText);
    SumAppend(cs, rs, UnresolvedText);
    assert im.relations[..|im.relations|] == im.relations;
    forall i, j | 0 <= i < |cs| && 0 <= j < |rs| ensures cs[i] != rs[j] {
      assert cs[i] in cs && rs[j] in rs;
    }
  }
}
