/** What a successful compilation emits: ordered explanations and one patch (compiler.rs). */
module Emission {
  import opened Machine
  import opened Ordering
  import opened Protocol
  import opened CompilationReport
  import opened Planning

  // ----- explanations -----

  function RelationDecision(p: EntityPlan): seq<Decision> {
    (if p.parentRelation.Some? then [Decision(ParentRelationApplied, p.key, p.parentRelation, None)] else [])
    + (if p.placement.Some? then
         [Decision(if p.placement.value.kind.PlaceAbove? then AboveRelationApplied else RightOfRelationApplied,
            p.key, Some(p.placement.value.relationIndex), None)]
       else [])
  }

  function RelationDecisions(plans: seq<EntityPlan>): seq<Decision> {
    if plans == [] then []
    else RelationDecisions(plans[..|plans| - 1]) + RelationDecision(plans[|plans| - 1])
  }

  /** `append_relation_decisions`. */
  method AppendRelationDecisions(plans: seq<EntityPlan>, before: seq<Decision>) returns (decisions: seq<Decision>)
    ensures decisions == before + RelationDecisions(plans)
  {
    decisions := before;
    for x := 0 to |plans|
      invariant decisions == before + RelationDecisions(plans[..x])
    {
      assert plans[..x + 1][..x] == plans[..x];
      decisions := decisions + RelationDecision(plans[x]);
    }
    assert plans[..|plans|] == plans;
  }

  /** No two decisions agree in both key and code. */
  ghost predicate Distinguished(ds: seq<Decision>) {
    forall i, j | 0 <= i < j < |ds| :: ds[i].entityKey != ds[j].entityKey || ds[i].code != ds[j].code
  }

  lemma {:induction false} DistinguishedSorts(ds: seq<Decision>)
    requires Distinguished(ds)
    ensures StrictlySorted(SortBy(ds, DecisionCmp), DecisionCmp)
  {
    DecisionOrder();
    SortBySorts(ds, DecisionCmp);
    var s := SortBy(ds, DecisionCmp);
    PermutationNoDuplicates(s, ds);
    forall i, j | 0 <= i < j < |s| ensures DecisionCmp(s[i], s[j]) != Equal {
      assert s[i] in Elements(s) && s[j] in Elements(s);
      DistinguishedDiffer(ds, s[i], s[j]);
    }
    SortedDistinctIsStrict(s, DecisionCmp);
  }

  lemma {:induction false} DistinguishedDiffer(ds: seq<Decision>, d: Decision, e: Decision)
    requires Distinguished(ds) && d in ds && e in ds && d != e
    ensures DecisionCmp(d, e) != Equal
  {
    TextCmpLawful(d.entityKey, e.entityKey, []);
  }

  // ----- the patch -----

  function CreateOf(p: EntityPlan): Operation {
    Create(p.entityId,
      [Name(p.name), LocalTransform(p.transform), PrimitiveShape(p.primitive), SurfaceMaterial(p.material)])
  }

  function Creates(plans: seq<EntityPlan>): seq<Operation> {
    if plans == [] then [] else [CreateOf(plans[0])] + Creates(plans[1..])
  }

  /** The identity of the first plan with the key. */
  function IdOfKey(plans: seq<EntityPlan>, key: Text): Option<EntityId> {
    if plans == [] then None else if plans[0].key == key then Some(plans[0].entityId) else IdOfKey(plans[1..], key)
  }

  function ReparentOf(child: EntityPlan, plans: seq<EntityPlan>): Operation
    requires child.parent.Some?
  {
    Reparent(child.entityId, IdOfKey(plans, child.parent.value))
  }

  function Reparents(children: seq<EntityPlan>, plans: seq<EntityPlan>): seq<Operation> {
    if children == [] then []
    else
      (if children[0].parent.Some? then [ReparentOf(children[0], plans)] else []) + Reparents(children[1..], plans)
  }

  function PatchOf(im: Imagination, plans: seq<EntityPlan>): Patch {
    Patch(im.schemaVersion, im.transactionId, im.idempotencyKey, im.baseRevision, im.delivery,
      im.declaredBudget.patch, Creates(plans) + Reparents(plans, plans))
  }

  lemma {:induction false} NextCreate(plans: seq<EntityPlan>, x: nat)
    requires x < |plans|
    ensures Creates(plans[x..]) == [CreateOf(plans[x])] + Creates(plans[x + 1..])
  {
    assert plans[x..][1..] == plans[x + 1..];
  }

  lemma {:induction false} NextReparent(plans: seq<EntityPlan>, x: nat)
    requires x < |plans|
    ensures Reparents(plans[x..], plans) ==
      (if plans[x].parent.Some? then [ReparentOf(plans[x], plans)] else []) + Reparents(plans[x + 1..], plans)
  {
    assert plans[x..][1..] == plans[x + 1..];
  }

  method EmitCreates(plans: seq<EntityPlan>) returns (operations: seq<Operation>)
    ensures operations == Creates(plans)
  {
    operations := [];
    for x := 0 to |plans|
      invariant operations + Creates(plans[x..]) == Creates(plans)
    {
      NextCreate(plans, x);
      operations := operations + [CreateOf(plans[x])];
    }
  }

  method EmitReparents(plans: seq<EntityPlan>) returns (operations: seq<Operation>)
    ensures operations == Reparents(plans, plans)
  {
    operations := [];
    for x := 0 to |plans|
      invariant operations + Reparents(plans[x..], plans) == Reparents(plans, plans)
    {
      NextReparent(plans, x);
      ghost var rest := Reparents(plans[x + 1..], plans);
      if plans[x].parent.Some? {
        assert operations + ([ReparentOf(plans[x], plans)] + rest) == operations + [ReparentOf(plans[x], plans)] + rest;
        operations := operations + [ReparentOf(plans[x], plans)];
      } else {
        assert [] + rest == rest;
      }
    }
  }

  /** `build_patch`: all creates in plan order, then one reparent per parented plan. */
  method BuildPatch(im: Imagination, plans: seq<EntityPlan>) returns (patch: Patch)
    ensures patch == PatchOf(im, plans)
  {
    var creates := EmitCreates(plans);
    var reparents := EmitReparents(plans);
    patch := Patch(im.schemaVersion, im.transactionId, im.idempotencyKey, im.baseRevision, im.delivery,
      im.declaredBudget.patch, creates + reparents);
  }

  /** Plans that emit what the declared entities ask for. */
  ghost predicate Emits(es: seq<ImaginedEntity>, plans: seq<EntityPlan>) {
    && |plans| == |es|
    && forall x | 0 <= x < |es| :: plans[x].key == es[x].key && plans[x].name == es[x].DisplayName()
  }

  lemma {:induction false} CreateSizes(e: ImaginedEntity, p: EntityPlan)
    requires p.name == e.DisplayName()
    ensures OperationText(CreateOf(p)) == EntityNameBytes(e)
    ensures OperationBytes(CreateOf(p)) == EntityCreateBytes(e)
    ensures OperationComponents(CreateOf(p)) == 4
  {
    var n, t, s, m :=
      Name(p.name), LocalTransform(p.transform), PrimitiveShape(p.primitive), SurfaceMaterial(p.material);
    SumOfFour(n, t, s, m, ComponentText);
    SumOfFour(n, t, s, m, ComponentBytes);
  }

  lemma {:induction false} SumOfFour<T>(a: T, b: T, c: T, d: T, f: T -> nat)
    ensures Sum([a, b, c, d], f) == f(a) + f(b) + f(c) + f(d)
  {
    SumPush([], a, f);
    SumPush([a], b, f);
    SumPush([a, b], c, f);
    SumPush([a, b, c], d, f);
    assert [] + [a] == [a] && [a] + [b] == [a, b] && [a, b] + [c] == [a, b, c] && [a, b, c] + [d] == [a, b, c, d];
  }

  lemma {:induction false} CreatesSizes(es: seq<ImaginedEntity>, plans: seq<EntityPlan>)
    requires Emits(es, plans)
    ensures |Creates(plans)| == |plans|
    ensures Sum(Creates(plans), OperationText) == Sum(es, EntityNameBytes)
    ensures Sum(Creates(plans), OperationBytes) == Sum(es, EntityCreateBytes)
    ensures Sum(Creates(plans), OperationComponents) == 4 * |plans|
  {
    if plans != [] {
      CreateSizes(es[0], plans[0]);
      CreatesSizes(es[1..], plans[1..]);
      assert Creates(plans)[1..] == Creates(plans[1..]);
    }
  }

  /** Indices of the relations that the parented children carry. */
  function ParentRelations(children: seq<EntityPlan>): seq<nat> {
    if children == [] then []
    else (if children[0].parent.Some? && children[0].parentRelation.Some?
          then [children[0].parentRelation.value] else []) + ParentRelations(children[1..])
  }

  lemma {:induction false} ReparentsSizes(children: seq<EntityPlan>, plans: seq<EntityPlan>)
    requires forall p | p in children ::
      p.parent.Some? ==> p.parentRelation.Some? && IdOfKey(plans, p.parent.value).Some?
    ensures |Reparents(children, plans)| == |ParentRelations(children)|
    ensures Sum(Reparents(children, plans), OperationText) == 0
    ensures Sum(Reparents(children, plans), OperationComponents) == 0
    ensures Sum(Reparents(children, plans), OperationBytes) == 34 * |ParentRelations(children)|
  {
    if children != [] {
      assert children[0] in children;
      ReparentsSizes(children[1..], plans);
      var rest := Reparents(children[1..], plans);
      if children[0].parent.Some? {
        assert Reparents(children, plans)[1..] == rest;
      } else {
        assert Reparents(children, plans) == rest;
      }
    }
  }

  lemma {:induction false} ParentRelationsAre(children: seq<EntityPlan>, i: nat)
    ensures i in ParentRelations(children) <==>
      exists x :: 0 <= x < |children| && children[x].parent.Some? && children[x].parentRelation == Some(i)
  {
    if children != [] {
      ParentRelationsAre(children[1..], i);
      if x :| 0 <= x < |children[1..]| && children[1..][x].parent.Some? && children[1..][x].parentRelation == Some(i) {
        assert children[x + 1].parent.Some?;
      }
      if x :| 0 <= x < |children| && children[x].parent.Some? && children[x].parentRelation == Some(i) {
        if x > 0 { assert children[1..][x - 1] == children[x]; }
      }
    }
  }

  lemma {:induction false} ParentRelationsDistinct(children: seq<EntityPlan>)
    requires forall x, y | 0 <= x < y < |children| ::
      children[x].parentRelation.None? || children[x].parentRelation != children[y].parentRelation
    ensures NoDuplicates(ParentRelations(children)) && |ParentRelations(children)| <= |children|
  {
    if children != [] {
      ParentRelationsDistinct(children[1..]);
      if children[0].parentRelation.Some? { ParentRelationsAre(children[1..], children[0].parentRelation.value); }
    }
  }
}
