/** Relation assignment and the two cycle checks (compiler.rs). */
module Relations {
  import opened Machine
  import opened Ordering
  import opened CycleMarker
  import opened Protocol
  import opened CompilationReport
  import opened Planning

  // ----- what the relations of an imagination mean -----

  ghost function Keys(im: Imagination): set<Text> { set e | e in im.entities :: e.key }

  /** Both ends are declared and distinct. */
  ghost predicate WellFormed(im: Imagination, i: nat)
    requires i < |im.relations|
  {
    var r := im.relations[i];
    r.Subject() in Keys(im) && r.Target() in Keys(im) && r.Subject() != r.Target()
  }

  /** The first well-formed relation among the first `n` that assigns `k`. */
  ghost function Owner(im: Imagination, k: Text, n: nat): Option<nat>
    requires n <= |im.relations|
  {
    if n == 0 then None
    else
      var before := Owner(im, k, n - 1);
      if before.Some? then before
      else if WellFormed(im, n - 1) && im.relations[n - 1].Subject() == k then Some(n - 1)
      else None
  }

  lemma {:induction false} OwnerIsFirst(im: Imagination, k: Text, n: nat)
    requires n <= |im.relations|
    ensures match Owner(im, k, n)
      case Some(i) =>
        && i < n && WellFormed(im, i) && im.relations[i].Subject() == k
        && forall j | 0 <= j < i :: !(WellFormed(im, j) && im.relations[j].Subject() == k)
      case None => forall j | 0 <= j < n :: !(WellFormed(im, j) && im.relations[j].Subject() == k)
  {
    if n > 0 { OwnerIsFirst(im, k, n - 1); }
  }

  ghost function FinalOwner(im: Imagination, k: Text): Option<nat> { Owner(im, k, |im.relations|) }

  ghost predicate OwnedByParent(im: Imagination, k: Text) {
    OwnerIsFirst(im, k, |im.relations|);
    FinalOwner(im, k).Some? && im.relations[FinalOwner(im, k).value].Parent?
  }

  ghost predicate OwnedByPlacement(im: Imagination, k: Text) {
    OwnerIsFirst(im, k, |im.relations|);
    FinalOwner(im, k).Some? && !im.relations[FinalOwner(im, k).value].Parent?
  }

  ghost function OwnerTarget(im: Imagination, k: Text): Text
    requires FinalOwner(im, k).Some?
  {
    OwnerIsFirst(im, k, |im.relations|);
    im.relations[FinalOwner(im, k).value].Target()
  }

  /** Child to parent. */
  ghost function ParentGraph(im: Imagination): map<Text, Text> {
    map k | k in Keys(im) && OwnedByParent(im, k) :: OwnerTarget(im, k)
  }

  /** Placed entity to anchor. */
  ghost function PlacementGraph(im: Imagination): map<Text, Text> {
    map k | k in Keys(im) && OwnedByPlacement(im, k) :: OwnerTarget(im, k)
  }

  function RelationIssue(im: Imagination, code: UnresolvedCode, i: nat): Unresolved
    requires i < |im.relations|
  {
    Issue(code, i, im.relations[i].Subject(), im.relations[i].Target())
  }

  function Issue(code: UnresolvedCode, i: nat, entity: Text, related: Text): Unresolved {
    Unresolved(code, Some(i), None, Some(entity), Some(related), None)
  }

  // ----- key index -----

  ghost predicate DistinctPlanKeys(plans: seq<EntityPlan>) {
    forall x, y | 0 <= x < y < |plans| :: plans[x].key != plans[y].key
  }

  /** `index` is exactly the position of each plan's key. */
  ghost predicate Indexed(plans: seq<EntityPlan>, index: map<Text, nat>) {
    && (forall x | 0 <= x < |plans| :: plans[x].key in index && index[plans[x].key] == x)
    && (forall k | k in index :: index[k] < |plans| && plans[index[k]].key == k)
  }

  function KeyIndex(plans: seq<EntityPlan>): (index: map<Text, nat>)
    requires DistinctPlanKeys(plans)
    ensures Indexed(plans, index)
  {
    map x: nat | x < |plans| :: plans[x].key := x
  }

  // ----- assignment -----

  ghost predicate Unattached(p: EntityPlan) { p.parent.None? && p.parentRelation.None? && p.placement.None? }

  function AttachRelation(p: EntityPlan, r: Relation, i: nat): EntityPlan {
    match r
    case Parent(_, parent) => p.(parent := Some(parent), parentRelation := Some(i))
    case Above(_, anchor, clearance) => p.(placement := Some(Placement(i, anchor, PlaceAbove(clearance))))
    case RightOf(_, anchor, gap) => p.(placement := Some(Placement(i, anchor, PlaceRightOf(gap))))
  }

  /** A plan after the first `n` relations: it carries its owner and nothing else. */
  ghost function Attach(p: EntityPlan, im: Imagination, n: nat): EntityPlan
    requires n <= |im.relations|
  {
    OwnerIsFirst(im, p.key, n);
    match Owner(im, p.key, n)
    case None => p
    case Some(i) => AttachRelation(p, im.relations[i], i)
  }

  /** The issue that assignment reports for relation `i`, if any. */
  ghost function AssignCode(im: Imagination, i: nat): Option<UnresolvedCode>
    requires i < |im.relations|
  {
    var r := im.relations[i];
    if r.Subject() !in Keys(im) || r.Target() !in Keys(im) then Some(UnknownEntityReference)
    else if r.Subject() == r.Target() then Some(SelfRelation)
    else if Owner(im, r.Subject(), i).Some? then Some(ConflictingRelation)
    else None
  }

  ghost function AssignIssues(im: Imagination, n: nat): seq<Unresolved>
    requires n <= |im.relations|
  {
    if n == 0 then []
    else
      AssignIssues(im, n - 1)
      + (if AssignCode(im, n - 1).Some? then [RelationIssue(im, AssignCode(im, n - 1).value, n - 1)] else [])
  }

  /** Every plan after the first `n` relations. */
  ghost function AttachUpTo(plans: seq<EntityPlan>, im: Imagination, n: nat): seq<EntityPlan>
    requires n <= |im.relations|
  {
    seq(|plans|, x requires 0 <= x < |plans| => Attach(plans[x], im, n))
  }

  /** Only the accepted relation's subject changes. */
  function AttachSubject(plans: seq<EntityPlan>, r: Relation, i: nat, accepted: bool): seq<EntityPlan> {
    seq(|plans|, x requires 0 <= x < |plans| =>
      if accepted && plans[x].key == r.Subject() then AttachRelation(plans[x], r, i) else plans[x])
  }

  /** Plans attached so far are exactly those with an owner. */
  ghost predicate Owned(im: Imagination, plans: seq<EntityPlan>, n: nat)
    requires n <= |im.relations|
  {
    forall x | 0 <= x < |plans| ::
      (plans[x].parent.Some? || plans[x].placement.Some?) <==> Owner(im, plans[x].key, n).Some?
  }

  /** One relation of `assign_relations`; `assign_placement` follows the same branches. */
  method AssignRelation(im: Imagination, i: nat, entities: array<EntityPlan>, index: map<Text, nat>)
    returns (issue: Option<UnresolvedCode>)
    requires i < |im.relations|
    requires Indexed(entities[..], index) && index.Keys == Keys(im) && Owned(im, entities[..], i)
    modifies entities
    ensures issue == AssignCode(im, i)
    ensures entities[..] == AttachSubject(old(entities[..]), im.relations[i], i, issue.None?)
  {
    var r := im.relations[i];
    if r.Subject() !in index || r.Target() !in index {
      return Some(UnknownEntityReference);
    }
    if r.Subject() == r.Target() {
      return Some(SelfRelation);
    }
    var x := index[r.Subject()];
    assert entities[..][x] == entities[x];
    if entities[x].parent.Some? || entities[x].placement.Some? {
      return Some(ConflictingRelation);
    }
    ghost var plans := entities[..];
    forall y | 0 <= y < |plans| && y != x ensures plans[y].key != r.Subject() {
      assert plans[y].key in index && index[plans[y].key] == y;
    }
    entities[x] := AttachRelation(entities[x], r, i);
    return None;
  }

  /** `assign_relations`: every plan is attached to its owner, and every other relation is reported. */
  method AssignRelations(im: Imagination, entities: array<EntityPlan>, index: map<Text, nat>, before: seq<Unresolved>)
    returns (unresolved: seq<Unresolved>)
    requires Indexed(entities[..], index) && index.Keys == Keys(im)
    requires forall x | 0 <= x < entities.Length :: Unattached(entities[..][x])
    modifies entities
    ensures entities[..] == AttachUpTo(old(entities[..]), im, |im.relations|)
    ensures unresolved == before + AssignIssues(im, |im.relations|)
  {
    unresolved := before;
    ghost var base := entities[..];
    AttachNothing(base, im);
    for i := 0 to |im.relations|
      invariant entities[..] == AttachUpTo(base, im, i)
      invariant unresolved == before + AssignIssues(im, i)
    {
      AttachedSoFar(base, im, i, index);
      var issue := AssignRelation(im, i, entities, index);
      AttachNext(base, im, i);
      if issue.Some? {
        unresolved := unresolved + [RelationIssue(im, issue.value, i)];
      }
    }
  }

  lemma {:induction false} AttachNothing(base: seq<EntityPlan>, im: Imagination)
    ensures AttachUpTo(base, im, 0) == base
  {
  }

  lemma {:induction false} AttachedSoFar(base: seq<EntityPlan>, im: Imagination, n: nat, index: map<Text, nat>)
    requires n <= |im.relations| && Indexed(base, index)
    requires forall x | 0 <= x < |base| :: Unattached(base[x])
    ensures Indexed(AttachUpTo(base, im, n), index) && Owned(im, AttachUpTo(base, im, n), n)
  {
    forall x | 0 <= x < |base|
      ensures AttachUpTo(base, im, n)[x].key == base[x].key
      ensures (AttachUpTo(base, im, n)[x].parent.Some? || AttachUpTo(base, im, n)[x].placement.Some?)
        <==> Owner(im, base[x].key, n).Some?
    {
      AttachFacts(base[x], im, n);
    }
    SameKeysIndexed(base, AttachUpTo(base, im, n), index);
  }

  lemma {:induction false} AttachNext(base: seq<EntityPlan>, im: Imagination, i: nat)
    requires i < |im.relations|
    requires forall x | 0 <= x < |base| :: Unattached(base[x]) && base[x].key in Keys(im)
    ensures AttachUpTo(base, im, i + 1)
      == AttachSubject(AttachUpTo(base, im, i), im.relations[i], i, AssignCode(im, i).None?)
  {
    forall x | 0 <= x < |base|
      ensures AttachUpTo(base, im, i + 1)[x]
        == AttachSubject(AttachUpTo(base, im, i), im.relations[i], i, AssignCode(im, i).None?)[x]
    {
      AttachFacts(base[x], im, i);
      AttachStep(base[x], im, i);
    }
  }

  lemma {:induction false} AttachFacts(p: EntityPlan, im: Imagination, n: nat)
    requires n <= |im.relations| && Unattached(p)
    ensures Attach(p, im, n).key == p.key
    ensures (Attach(p, im, n).parent.Some? || Attach(p, im, n).placement.Some?) <==> Owner(im, p.key, n).Some?
  {
  }

  lemma {:induction false} AttachStep(p: EntityPlan, im: Imagination, i: nat)
    requires i < |im.relations| && Unattached(p)
    requires p.key in Keys(im)
    ensures Attach(p, im, i + 1) ==
      if AssignCode(im, i).None? && p.key == im.relations[i].Subject()
      then AttachRelation(Attach(p, im, i), im.relations[i], i) else Attach(p, im, i)
  {
    OwnerIsFirst(im, p.key, i);
  }

  lemma SameKeysIndexed(a: seq<EntityPlan>, b: seq<EntityPlan>, index: map<Text, nat>)
    requires Indexed(a, index) && |a| == |b|
    requires forall x | 0 <= x < |a| :: b[x].key == a[x].key
    ensures Indexed(b, index)
  {
  }

  // ----- parented anchors -----

  function AnchorIssue(plans: seq<EntityPlan>, index: map<Text, nat>, x: nat): Option<Unresolved>
    requires x < |plans|
  {
    match plans[x].placement
    case None => None
    case Some(p) =>
      if p.anchor in index && index[p.anchor] < |plans| && plans[index[p.anchor]].parent.Some?
      then Some(Issue(ConflictingRelation, p.relationIndex, plans[x].key, p.anchor)) else None
  }

  function AnchorIssues(plans: seq<EntityPlan>, index: map<Text, nat>, n: nat): seq<Unresolved>
    requires n <= |plans|
  {
    if n == 0 then []
    else
      AnchorIssues(plans, index, n - 1)
      + (if AnchorIssue(plans, index, n - 1).Some? then [AnchorIssue(plans, index, n - 1).value] else [])
  }

  /** `reject_parented_placement_anchors`. */
  method RejectParentedAnchors(plans: seq<EntityPlan>, index: map<Text, nat>, before: seq<Unresolved>)
    returns (unresolved: seq<Unresolved>)
    requires Indexed(plans, index)
    requires forall p | p in plans && p.placement.Some? :: p.placement.value.anchor in index
    ensures unresolved == before + AnchorIssues(plans, index, |plans|)
  {
    unresolved := before;
    for x := 0 to |plans|
      invariant unresolved == before + AnchorIssues(plans, index, x)
    {
      if plans[x].placement.Some? {
        var placement := plans[x].placement.value;
        assert plans[x] in plans;
        if plans[index[placement.anchor]].parent.Some? {
          unresolved := unresolved
            + [Issue(ConflictingRelation, placement.relationIndex, plans[x].key, placement.anchor)];
        }
      }
    }
  }

  // ----- cycles -----

  type EdgeOf = EntityPlan -> Option<(Text, nat)>

  function ParentEdge(p: EntityPlan): Option<(Text, nat)> {
    if p.parent.Some? && p.parentRelation.Some? then Some((p.parent.value, p.parentRelation.value)) else None
  }

  function PlacementEdge(p: EntityPlan): Option<(Text, nat)> {
    if p.placement.Some? then Some((p.placement.value.anchor, p.placement.value.relationIndex)) else None
  }

  /** The edges of all plans, by position. */
  function EdgesOf(plans: seq<EntityPlan>, index: map<Text, nat>, next: EdgeOf): seq<Option<Edge>>
    requires forall x | 0 <= x < |plans| && next(plans[x]).Some? :: next(plans[x]).value.0 in index
  {
    seq(|plans|, x requires 0 <= x < |plans| =>
      match next(plans[x])
      case None => None
      case Some((key, relation)) => Some(Edge(index[key], relation)))
  }

  function CycleIssues(plans: seq<EntityPlan>, next: EdgeOf, code: UnresolvedCode, order: seq<nat>): seq<Unresolved>
    requires forall i | 0 <= i < |order| :: order[i] < |plans| && next(plans[order[i]]).Some?
  {
    seq(|order|, i requires 0 <= i < |order| =>
      Issue(code, next(plans[order[i]]).value.1, plans[order[i]].key, next(plans[order[i]]).value.0))
  }

  /** `mark_relation_cycles`: one issue for each plan on a cycle of `next`, and no other. */
  method MarkRelationCycles(
    plans: seq<EntityPlan>, index: map<Text, nat>, next: EdgeOf, code: UnresolvedCode, before: seq<Unresolved>)
    returns (unresolved: seq<Unresolved>, ghost order: seq<nat>)
    requires forall x | 0 <= x < |plans| && next(plans[x]).Some? :: next(plans[x]).value.0 in index
    requires Proper(EdgesOf(plans, index, next))
    ensures NoDuplicates(order)
    ensures forall x: nat :: x in order <==> Cyclic(EdgesOf(plans, index, next), x)
    ensures forall i | 0 <= i < |order| :: order[i] < |plans| && next(plans[order[i]]).Some?
    ensures unresolved == before + CycleIssues(plans, next, code, order)
    ensures before <= unresolved
  {
    var edges := EdgesOf(plans, index, next);
    var marked := MarkCycles(edges);
    order := marked;
    forall i | 0 <= i < |marked| ensures marked[i] < |plans| && next(plans[marked[i]]).Some? {
      assert marked[i] in marked;
      assert Cyclic(edges, marked[i]);
    }
    unresolved := before + CycleIssues(plans, next, code, marked);
  }
}
