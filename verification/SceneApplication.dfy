/** Applying a compiled patch to the scene it was compiled against (world.rs, compiler.rs). */
module SceneApplication {
  import opened Machine
  import opened FunctionalGraph
  import opened Protocol
  import opened Planning
  import opened Relations
  import opened Emission
  import opened CompiledPatch
  import opened Hierarchy

  type Components = map<ComponentKind, Component>

  /** The logical state that operations change: live entities with their components, and parent edges. */
  datatype Scene = Scene(entities: map<EntityId, Components>, parents: map<EntityId, EntityId>)

  datatype ApplyError =
    | EntityAlreadyExists(entityId: EntityId)
    | EntityNotFound(entityId: EntityId)
    | EntityCapacityExceeded
    | ComponentNotFound(entityId: EntityId)
    | InvalidHierarchy

  function ByKind(cs: seq<Component>): Components {
    if cs == [] then map[] else ByKind(cs[..|cs| - 1])[cs[|cs| - 1].Kind() := cs[|cs| - 1]]
  }

  /** One operation: its preflight checks and its effect. */
  function ApplyOperation(s: Scene, o: Operation, maxEntities: nat): Result<Scene, ApplyError> {
    match o
    case Create(id, cs) =>
      if id in s.entities then Err(EntityAlreadyExists(id))
      else if |s.entities| + 1 > maxEntities then Err(EntityCapacityExceeded)
      else Ok(s.(entities := s.entities[id := ByKind(cs)]))
    case Delete(id) =>
      if id !in s.entities then Err(EntityNotFound(id))
      else Ok(Scene(s.entities - {id}, s.parents - {id}))
    case SetComponent(id, c) =>
      if id !in s.entities then Err(EntityNotFound(id))
      else Ok(s.(entities := s.entities[id := s.entities[id][c.Kind() := c]]))
    case RemoveComponent(id, kind) =>
      if id !in s.entities then Err(EntityNotFound(id))
      else if kind !in s.entities[id] then Err(ComponentNotFound(id))
      else Ok(s.(entities := s.entities[id := s.entities[id] - {kind}]))
    case Reparent(id, parent) =>
      if id !in s.entities then Err(EntityNotFound(id))
      else
        match parent
        case None => Ok(s.(parents := s.parents - {id}))
        case Some(p) => if p !in s.entities then Err(EntityNotFound(p)) else Ok(s.(parents := s.parents[id := p]))
  }

  function ApplyAll(s: Scene, ops: seq<Operation>, maxEntities: nat): Result<Scene, ApplyError>
    decreases |ops|
  {
    if ops == [] then Ok(s)
    else match ApplyOperation(s, ops[0], maxEntities)
      case Err(e) => Err(e)
      case Ok(next) => ApplyAll(next, ops[1..], maxEntities)
  }

  ghost predicate WellFormedScene(s: Scene) { Closed(s.entities.Keys, s.parents) && Acyclic(s.parents) }

  /** The whole patch: all operations, then the hierarchy check on the result. */
  ghost function ApplyPatch(s: Scene, ops: seq<Operation>, maxEntities: nat, maxDepth: nat): Result<Scene, ApplyError> {
    match ApplyAll(s, ops, maxEntities)
    case Err(e) => Err(e)
    case Ok(t) => if Sound(t.entities.Keys, t.parents, maxDepth) then Ok(t) else Err(InvalidHierarchy)
  }

  /** Every operation succeeds and every state on the way is a well-formed scene. */
  ghost predicate Steady(s: Scene, ops: seq<Operation>, maxEntities: nat)
    decreases |ops|
  {
    && WellFormedScene(s)
    && (ops == [] ||
        (ApplyOperation(s, ops[0], maxEntities).Ok?
         && Steady(ApplyOperation(s, ops[0], maxEntities).value, ops[1..], maxEntities)))
  }

  lemma {:induction false} FirstStep(s: Scene, o: Operation, rest: seq<Operation>, next: Scene, maxEntities: nat)
    requires ApplyOperation(s, o, maxEntities) == Ok(next)
    ensures ApplyAll(s, [o] + rest, maxEntities) == ApplyAll(next, rest, maxEntities)
    ensures WellFormedScene(s) && Steady(next, rest, maxEntities) ==> Steady(s, [o] + rest, maxEntities)
  {
    assert ([o] + rest)[1..] == rest;
  }

  lemma {:induction false} ApplyAllAppend(s: Scene, a: seq<Operation>, b: seq<Operation>, maxEntities: nat)
    ensures ApplyAll(s, a + b, maxEntities) ==
      match ApplyAll(s, a, maxEntities) case Err(e) => Err(e) case Ok(t) => ApplyAll(t, b, maxEntities)
    decreases |a|
  {
    if a == [] {
      assert a + b == b;
    } else {
      assert (a + b)[1..] == a[1..] + b;
      if ApplyOperation(s, a[0], maxEntities).Ok? {
        ApplyAllAppend(ApplyOperation(s, a[0], maxEntities).value, a[1..], b, maxEntities);
      }
    }
  }

  lemma {:induction false} SteadyAppend(s: Scene, a: seq<Operation>, b: seq<Operation>, maxEntities: nat)
    requires Steady(s, a, maxEntities) && ApplyAll(s, a, maxEntities).Ok?
    requires Steady(ApplyAll(s, a, maxEntities).value, b, maxEntities)
    ensures Steady(s, a + b, maxEntities)
    decreases |a|
  {
    if a == [] {
      assert a + b == b;
    } else {
      assert (a + b)[1..] == a[1..] + b;
      SteadyAppend(ApplyOperation(s, a[0], maxEntities).value, a[1..], b, maxEntities);
    }
  }

  // ----- what the patch should produce -----

  /** The entities that the plans create. */
  function CreatedBy(plans: seq<EntityPlan>): map<EntityId, Components> {
    if plans == [] then map[]
    else map[plans[0].entityId := ByKind(CreateOf(plans[0]).components)] + CreatedBy(plans[1..])
  }

  /** The parent edges that the children declare, as identities. */
  function EdgesBy(children: seq<EntityPlan>, plans: seq<EntityPlan>): map<EntityId, EntityId> {
    if children == [] then map[]
    else
      (if children[0].parent.Some? && IdOfKey(plans, children[0].parent.value).Some?
       then map[children[0].entityId := IdOfKey(plans, children[0].parent.value).value] else map[])
      + EdgesBy(children[1..], plans)
  }

  lemma {:induction false} CreatedKeys(plans: seq<EntityPlan>)
    ensures CreatedBy(plans).Keys == Ids(plans)
  {
    if plans != [] {
      CreatedKeys(plans[1..]);
      assert plans == [plans[0]] + plans[1..];
    }
  }

  ghost predicate DistinctIds(plans: seq<EntityPlan>) {
    forall x, y | 0 <= x < y < |plans| :: plans[x].entityId != plans[y].entityId
  }

  lemma {:induction false} DistinctIdsTail(plans: seq<EntityPlan>)
    requires DistinctIds(plans) && plans != []
    ensures DistinctIds(plans[1..]) && plans[0].entityId !in Ids(plans[1..])
    ensures |Ids(plans)| == |Ids(plans[1..])| + 1
  {
    assert plans == [plans[0]] + plans[1..];
    assert Ids(plans) == {plans[0].entityId} + Ids(plans[1..]);
  }

  function WithEntity(s: Scene, p: EntityPlan): Scene {
    s.(entities := s.entities[p.entityId := ByKind(CreateOf(p).components)])
  }

  lemma GrowMap<K, V>(m: map<K, V>, k: K, v: V)
    requires k !in m
    ensures m[k := v].Keys == m.Keys + {k} && |m[k := v]| == |m| + 1
  {
    assert m[k := v].Keys == m.Keys + {k};
    assert |m[k := v]| == |m[k := v].Keys| && |m| == |m.Keys|;
  }

  lemma {:induction false} GrowOne(s: Scene, plans: seq<EntityPlan>)
    requires DistinctIds(plans) && plans != [] && s.entities.Keys !! Ids(plans)
    ensures var next := WithEntity(s, plans[0]);
      && plans[0].entityId !in s.entities && next.entities.Keys == s.entities.Keys + {plans[0].entityId}
      && |next.entities| == |s.entities| + 1 && next.entities.Keys !! Ids(plans[1..])
  {
    DistinctIdsTail(plans);
    IdsOfFirst(plans);
    GrowMap(s.entities, plans[0].entityId, ByKind(CreateOf(plans[0]).components));
  }

  lemma IdsOfFirst(plans: seq<EntityPlan>)
    requires plans != []
    ensures Ids(plans) == {plans[0].entityId} + Ids(plans[1..])
  {
    assert plans == [plans[0]] + plans[1..];
  }

  lemma {:induction false} CreateOne(s: Scene, plans: seq<EntityPlan>, maxEntities: nat)
    requires WellFormedScene(s) && DistinctIds(plans) && plans != [] && s.entities.Keys !! Ids(plans)
    requires |s.entities| + |plans| <= maxEntities
    ensures var next := WithEntity(s, plans[0]);
      && ApplyOperation(s, CreateOf(plans[0]), maxEntities) == Ok(next) && WellFormedScene(next)
      && DistinctIds(plans[1..]) && next.entities.Keys !! Ids(plans[1..]) && |next.entities| == |s.entities| + 1
  {
    GrowOne(s, plans);
    DistinctIdsTail(plans);
  }

  lemma {:induction false} CreatedFirst(s: Scene, plans: seq<EntityPlan>)
    requires DistinctIds(plans) && plans != []
    ensures WithEntity(s, plans[0]).entities + CreatedBy(plans[1..]) == s.entities + CreatedBy(plans)
  {
    DistinctIdsTail(plans);
    CreatedKeys(plans[1..]);
    InsertBefore(s.entities, plans[0].entityId, ByKind(CreateOf(plans[0]).components), CreatedBy(plans[1..]));
  }

  lemma InsertBefore<K, V>(m: map<K, V>, k: K, v: V, rest: map<K, V>)
    requires k !in rest
    ensures m[k := v] + rest == m + (map[k := v] + rest)
  {
  }

  lemma {:induction false} RunCreates(s: Scene, plans: seq<EntityPlan>, maxEntities: nat)
    requires WellFormedScene(s) && DistinctIds(plans) && s.entities.Keys !! Ids(plans)
    requires |s.entities| + |plans| <= maxEntities
    ensures ApplyAll(s, Creates(plans), maxEntities) == Ok(s.(entities := s.entities + CreatedBy(plans)))
    ensures Steady(s, Creates(plans), maxEntities)
    decreases |plans|
  {
    if plans == [] {
      assert s.entities + CreatedBy(plans) == s.entities;
    } else {
      var next := WithEntity(s, plans[0]);
      CreateOne(s, plans, maxEntities);
      CreatedFirst(s, plans);
      RunCreates(next, plans[1..], maxEntities);
      FirstStep(s, CreateOf(plans[0]), Creates(plans[1..]), next, maxEntities);
    }
  }

  /** Creating succeeds exactly within the capacity. */
  lemma {:induction false} CreatesOverCapacity(s: Scene, plans: seq<EntityPlan>, maxEntities: nat)
    requires DistinctIds(plans) && s.entities.Keys !! Ids(plans)
    requires |s.entities| <= maxEntities < |s.entities| + |plans|
    ensures ApplyAll(s, Creates(plans), maxEntities) == Err(EntityCapacityExceeded)
    decreases |plans|
  {
    var o, rest, next := CreateOf(plans[0]), Creates(plans[1..]), WithEntity(s, plans[0]);
    GrowOne(s, plans);
    if |s.entities| + 1 <= maxEntities {
      DistinctIdsTail(plans);
      CreatesOverCapacity(next, plans[1..], maxEntities);
      FirstStep(s, o, rest, next, maxEntities);
    }
  }

  lemma {:induction false} EdgesKeys(children: seq<EntityPlan>, plans: seq<EntityPlan>)
    ensures EdgesBy(children, plans).Keys <= Ids(children)
  {
    if children != [] {
      EdgesKeys(children[1..], plans);
      assert children == [children[0]] + children[1..];
    }
  }

  /** What one declared edge needs so that adding it keeps a forest inside `whole`. */
  ghost predicate Attachable(s: Scene, p: EntityPlan, plans: seq<EntityPlan>, whole: map<EntityId, EntityId>) {
    p.entityId in s.entities && p.entityId !in s.parents
    && (p.parent.Some? ==>
          && IdOfKey(plans, p.parent.value).Some? && IdOfKey(plans, p.parent.value).value in s.entities
          && p.entityId in whole && whole[p.entityId] == IdOfKey(plans, p.parent.value).value)
  }

  ghost predicate Within(s: Scene, whole: map<EntityId, EntityId>) {
    Closed(s.entities.Keys, s.parents) && Subgraph(s.parents, whole)
  }

  function WithEdge(s: Scene, p: EntityPlan, plans: seq<EntityPlan>): Scene
    requires p.parent.Some? && IdOfKey(plans, p.parent.value).Some?
  {
    s.(parents := s.parents[p.entityId := IdOfKey(plans, p.parent.value).value])
  }

  lemma {:induction false} AttachOne(
    s: Scene, p: EntityPlan, plans: seq<EntityPlan>, maxEntities: nat, whole: map<EntityId, EntityId>)
    requires Within(s, whole) && Attachable(s, p, plans, whole) && p.parent.Some?
    ensures ApplyOperation(s, ReparentOf(p, plans), maxEntities) == Ok(WithEdge(s, p, plans))
    ensures Within(WithEdge(s, p, plans), whole)
  {
  }

  lemma {:induction false} AttachFirst(
    s: Scene, children: seq<EntityPlan>, plans: seq<EntityPlan>, maxEntities: nat, whole: map<EntityId, EntityId>)
    requires Within(s, whole) && DistinctIds(children) && children != [] && children[0].parent.Some?
    requires forall p | p in children :: Attachable(s, p, plans, whole)
    ensures Attachable(s, children[0], plans, whole)
    ensures forall q | q in children[1..] :: Attachable(WithEdge(s, children[0], plans), q, plans, whole)
    ensures WithEdge(s, children[0], plans).parents + EdgesBy(children[1..], plans)
      == s.parents + EdgesBy(children, plans)
  {
    assert children[0] in children;
    forall q | q in children[1..] ensures Attachable(WithEdge(s, children[0], plans), q, plans, whole) {
      var x :| 0 < x < |children| && children[x] == q;
      assert Attachable(s, children[x], plans, whole);
    }
    DistinctIdsTail(children);
    EdgesKeys(children[1..], plans);
    InsertBefore(s.parents, children[0].entityId, IdOfKey(plans, children[0].parent.value).value,
      EdgesBy(children[1..], plans));
  }

  /** Reparenting adds the declared edges one at a time, staying inside an acyclic graph `whole`. */
  lemma {:induction false} RunReparents(
    s: Scene, children: seq<EntityPlan>, plans: seq<EntityPlan>, maxEntities: nat, whole: map<EntityId, EntityId>)
    requires Within(s, whole) && Acyclic(whole) && DistinctIds(children)
    requires forall p | p in children :: Attachable(s, p, plans, whole)
    ensures ApplyAll(s, Reparents(children, plans), maxEntities)
      == Ok(s.(parents := s.parents + EdgesBy(children, plans)))
    ensures Steady(s, Reparents(children, plans), maxEntities)
    decreases |children|
  {
    SubgraphAcyclic(s.parents, whole);
    if children == [] {
      assert s.parents + EdgesBy(children, plans) == s.parents;
    } else {
      var rest := children[1..];
      DistinctIdsTail(children);
      if children[0].parent.Some? {
        AttachFirst(s, children, plans, maxEntities, whole);
        AttachOne(s, children[0], plans, maxEntities, whole);
        var next := WithEdge(s, children[0], plans);
        RunReparents(next, rest, plans, maxEntities, whole);
        FirstStep(s, ReparentOf(children[0], plans), Reparents(rest, plans), next, maxEntities);
      } else {
        assert Reparents(children, plans) == Reparents(rest, plans);
        RunReparents(s, rest, plans, maxEntities, whole);
        assert EdgesBy(children, plans) == EdgesBy(rest, plans);
      }
    }
  }

  // ----- the declared hierarchy, by identity -----

  /** The scene after the patch. */
  function Extended(s: Scene, plans: seq<EntityPlan>): Scene {
    Scene(s.entities + CreatedBy(plans), s.parents + EdgesBy(plans, plans))
  }

  lemma {:induction false} EdgesLookup(children: seq<EntityPlan>, plans: seq<EntityPlan>, x: nat)
    requires DistinctIds(children) && x < |children|
    ensures children[x].entityId in EdgesBy(children, plans) <==>
      children[x].parent.Some? && IdOfKey(plans, children[x].parent.value).Some?
    ensures children[x].parent.Some? && IdOfKey(plans, children[x].parent.value).Some? ==>
      EdgesBy(children, plans)[children[x].entityId] == IdOfKey(plans, children[x].parent.value).value
  {
    DistinctIdsTail(children);
    EdgesKeys(children[1..], plans);
    if x > 0 {
      EdgesLookup(children[1..], plans, x - 1);
      assert children[x] in children[1..];
      assert children[x].entityId in Ids(children[1..]);
    }
  }

  /** `y` is the plan with key `k`. */
  ghost predicate IsPlanOf(plans: seq<EntityPlan>, y: nat, k: Text) { y < |plans| && plans[y].key == k }

  /** Plans whose parent fields are the edges of `g`, with unique keys and identities. */
  ghost predicate Linked(g: map<Text, Text>, plans: seq<EntityPlan>) {
    && DistinctPlanKeys(plans) && DistinctIds(plans)
    && (forall x | 0 <= x < |plans| ::
          && (plans[x].parent.Some? <==> plans[x].key in g)
          && (plans[x].parent.Some? ==> plans[x].parent.value == g[plans[x].key]))
    && (forall k | k in g :: exists y :: IsPlanOf(plans, y, g[k]))
  }

  ghost function KeyToId(plans: seq<EntityPlan>): map<Text, EntityId>
    requires DistinctPlanKeys(plans)
  {
    map k | k in KeyIndex(plans) :: plans[KeyIndex(plans)[k]].entityId
  }

  lemma {:induction false} PlanEdge(g: map<Text, Text>, s: Scene, plans: seq<EntityPlan>, x: nat) returns (y: nat)
    requires Linked(g, plans) && Closed(s.entities.Keys, s.parents) && s.entities.Keys !! Ids(plans) && x < |plans|
    ensures plans[x].entityId !in s.parents
    ensures plans[x].key in g <==> plans[x].entityId in Extended(s, plans).parents
    ensures plans[x].key in g ==>
      && IsPlanOf(plans, y, g[plans[x].key]) && IdOfKey(plans, g[plans[x].key]) == Some(plans[y].entityId)
      && Extended(s, plans).parents[plans[x].entityId] == plans[y].entityId
  {
    y := 0;
    assert plans[x].entityId in Ids(plans);
    EdgesLookup(plans, plans, x);
    if plans[x].key in g {
      y :| IsPlanOf(plans, y, g[plans[x].key]);
      IdOfKeyFinds(plans, y);
    }
  }

  /** Declared parents, read as identities, are exactly the new edges of the extended scene. */
  lemma {:induction false} HierarchyRelabels(g: map<Text, Text>, s: Scene, plans: seq<EntityPlan>)
    requires Linked(g, plans) && Closed(s.entities.Keys, s.parents) && s.entities.Keys !! Ids(plans)
    ensures Relabels(g, Extended(s, plans).parents, KeyToId(plans))
  {
    var f, h := KeyToId(plans), Extended(s, plans).parents;
    forall k | k in f
      ensures k in g <==> f[k] in h
      ensures k in g ==> g[k] in f && f[g[k]] == h[f[k]]
    {
      KeyEdge(g, s, plans, k);
    }
    forall k, l | k in f && l in f && f[k] == f[l] ensures k == l {
      assert KeyIndex(plans)[k] == KeyIndex(plans)[l];
    }
  }

  lemma {:induction false} KeyEdge(g: map<Text, Text>, s: Scene, plans: seq<EntityPlan>, k: Text)
    requires Linked(g, plans) && Closed(s.entities.Keys, s.parents) && s.entities.Keys !! Ids(plans)
    requires k in KeyToId(plans)
    ensures k in g <==> KeyToId(plans)[k] in Extended(s, plans).parents
    ensures k in g ==>
      g[k] in KeyToId(plans) && KeyToId(plans)[g[k]] == Extended(s, plans).parents[KeyToId(plans)[k]]
  {
    var y := PlanEdge(g, s, plans, KeyIndex(plans)[k]);
    assert k in g ==> plans[y].key in KeyToId(plans);
  }

  lemma {:induction false} OldRelabels(s: Scene, plans: seq<EntityPlan>)
    requires Closed(s.entities.Keys, s.parents) && s.entities.Keys !! Ids(plans)
    ensures Relabels(s.parents, Extended(s, plans).parents, map x | x in s.entities :: x)
  {
    EdgesKeys(plans, plans);
  }

  lemma {:induction false} OldHeights(s: Scene, plans: seq<EntityPlan>, id: EntityId)
    requires WellFormedScene(s) && s.entities.Keys !! Ids(plans) && id in s.entities
    ensures Height(Extended(s, plans).parents, id) == Height(s.parents, id)
    ensures !OnCycle(Extended(s, plans).parents, id)
  {
    OldRelabels(s, plans);
    RelabelHeight(s.parents, Extended(s, plans).parents, map x | x in s.entities :: x, id);
    RelabelOnCycle(s.parents, Extended(s, plans).parents, map x | x in s.entities :: x, id);
  }

  lemma {:induction false} NewHeights(g: map<Text, Text>, s: Scene, plans: seq<EntityPlan>, x: nat)
    requires Linked(g, plans) && Acyclic(g) && Closed(s.entities.Keys, s.parents) && s.entities.Keys !! Ids(plans)
    requires x < |plans|
    ensures Height(Extended(s, plans).parents, plans[x].entityId) == Height(g, plans[x].key)
    ensures !OnCycle(Extended(s, plans).parents, plans[x].entityId)
  {
    HierarchyRelabels(g, s, plans);
    assert plans[x].key in KeyToId(plans);
    RelabelHeight(g, Extended(s, plans).parents, KeyToId(plans), plans[x].key);
    RelabelOnCycle(g, Extended(s, plans).parents, KeyToId(plans), plans[x].key);
  }

  lemma {:induction false} EdgeChild(plans: seq<EntityPlan>, c: EntityId) returns (x: nat)
    requires c in Ids(plans)
    ensures x < |plans| && plans[x].entityId == c
  {
    var p :| p in plans && p.entityId == c;
    x :| 0 <= x < |plans| && plans[x] == p;
  }

  /** The extended scene is a forest. */
  lemma {:induction false} ExtendedWellFormed(g: map<Text, Text>, s: Scene, plans: seq<EntityPlan>)
    requires Linked(g, plans) && Acyclic(g) && WellFormedScene(s) && s.entities.Keys !! Ids(plans)
    ensures WellFormedScene(Extended(s, plans))
  {
    CreatedKeys(plans);
    EdgesKeys(plans, plans);
    var t := Extended(s, plans);
    forall c | c in t.parents ensures c in t.entities && t.parents[c] in t.entities && !OnCycle(t.parents, c) {
      if c in Ids(plans) {
        var x := EdgeChild(plans, c);
        var y := PlanEdge(g, s, plans, x);
        assert plans[y].entityId in Ids(plans);
        NewHeights(g, s, plans, x);
      } else {
        OldHeights(s, plans, c);
      }
    }
  }

  lemma {:induction false} RunLinked(g: map<Text, Text>, s: Scene, plans: seq<EntityPlan>, maxEntities: nat)
    requires Linked(g, plans) && Acyclic(g) && WellFormedScene(s) && s.entities.Keys !! Ids(plans)
    requires |s.entities| + |plans| <= maxEntities
    ensures ApplyAll(s, Creates(plans) + Reparents(plans, plans), maxEntities) == Ok(Extended(s, plans))
    ensures Steady(s, Creates(plans) + Reparents(plans, plans), maxEntities)
  {
    RunCreates(s, plans, maxEntities);
    var mid, whole := s.(entities := s.entities + CreatedBy(plans)), Extended(s, plans).parents;
    CreatedKeys(plans);
    EdgesKeys(plans, plans);
    ExtendedWellFormed(g, s, plans);
    forall p | p in plans ensures Attachable(mid, p, plans, whole) {
      var x :| 0 <= x < |plans| && plans[x] == p;
      var y := PlanEdge(g, s, plans, x);
      assert p.parent.Some? ==> plans[y].entityId in Ids(plans);
    }
    RunReparents(mid, plans, plans, maxEntities, whole);
    ApplyAllAppend(s, Creates(plans), Reparents(plans, plans), maxEntities);
    SteadyAppend(s, Creates(plans), Reparents(plans, plans), maxEntities);
  }

  // ----- the compiled patch -----

  /** A scene the patch is compiled for: same identities, nothing else assumed. */
  ghost predicate Viewed(s: Scene, view: SceneView) { WellFormedScene(s) && s.entities.Keys == view.entityIds }

  lemma {:induction false} CompiledLinked(
    pf: Platform, im: Imagination, view: SceneView, attempts: nat, base: seq<EntityPlan>, plans: seq<EntityPlan>)
    requires Compiled(pf, im, view, attempts, base, plans)
    ensures Linked(ParentGraph(im), plans) && Acyclic(ParentGraph(im))
    ensures |plans| == |im.entities| && view.entityIds !! Ids(plans)
    ensures forall x | 0 <= x < |plans| :: plans[x].key in Keys(im)
    ensures forall k | k in Keys(im) :: exists y :: IsPlanOf(plans, y, k)
  {
    FinalKeysDistinct(pf, im, view, attempts, base, plans);
    forall x | 0 <= x < |plans|
      ensures plans[x].key in Keys(im) && (plans[x].parent.Some? <==> plans[x].key in ParentGraph(im))
      ensures plans[x].parent.Some? ==> plans[x].parent.value == ParentGraph(im)[plans[x].key]
    {
      FinalFields(pf, im, view, attempts, base, plans, x);
    }
    forall k | k in Keys(im) ensures exists y :: IsPlanOf(plans, y, k) {
      var y := KeyHasPlan(pf, im, view, attempts, base, plans, k);
      assert IsPlanOf(plans, y, k);
    }
    forall k | k in ParentGraph(im) ensures ParentGraph(im)[k] in Keys(im) {
      OwnerIsFirst(im, k, |im.relations|);
    }
  }

  /**
   * A compiled patch always runs to its end against any scene with the viewed identities and room
   * for the new entities: every create is fresh, every reparent joins live entities, every state on
   * the way is a forest, and the result is the old scene plus exactly the plans and declared edges.
   */
  lemma {:induction false} CompiledPatchRuns(
    pf: Platform, im: Imagination, view: SceneView, attempts: nat, base: seq<EntityPlan>, plans: seq<EntityPlan>,
    s: Scene, maxEntities: nat)
    requires Compiled(pf, im, view, attempts, base, plans) && Viewed(s, view)
    requires |s.entities| + |im.entities| <= maxEntities
    ensures ApplyAll(s, PatchOf(im, plans).operations, maxEntities) == Ok(Extended(s, plans))
    ensures Steady(s, PatchOf(im, plans).operations, maxEntities)
  {
    CompiledLinked(pf, im, view, attempts, base, plans);
    RunLinked(ParentGraph(im), s, plans, maxEntities);
  }

  lemma {:induction false} ExtendedSoundIff(g: map<Text, Text>, s: Scene, plans: seq<EntityPlan>, maxDepth: nat)
    requires Linked(g, plans) && Acyclic(g) && WellFormedScene(s) && s.entities.Keys !! Ids(plans)
    requires Sound(s.entities.Keys, s.parents, maxDepth)
    ensures Sound(Extended(s, plans).entities.Keys, Extended(s, plans).parents, maxDepth) <==>
      forall x | 0 <= x < |plans| :: Height(g, plans[x].key) <= maxDepth
  {
    var t := Extended(s, plans);
    ExtendedWellFormed(g, s, plans);
    CreatedKeys(plans);
    forall x | 0 <= x < |plans|
      ensures Height(t.parents, plans[x].entityId) == Height(g, plans[x].key) && plans[x].entityId in t.entities
    {
      NewHeights(g, s, plans, x);
      assert plans[x].entityId in Ids(plans);
    }
    if forall x | 0 <= x < |plans| :: Height(g, plans[x].key) <= maxDepth {
      forall id | id in t.entities ensures Height(t.parents, id) <= maxDepth {
        if id in s.entities { OldHeights(s, plans, id); } else { var x := EdgeChild(plans, id); }
      }
    }
  }

  /** The world accepts the patch exactly when the entity capacity and the hierarchy depth allow it. */
  lemma {:induction false} CompiledPatchAcceptedIff(
    pf: Platform, im: Imagination, view: SceneView, attempts: nat, base: seq<EntityPlan>, plans: seq<EntityPlan>,
    s: Scene, maxEntities: nat, maxDepth: nat)
    requires Compiled(pf, im, view, attempts, base, plans) && Viewed(s, view)
    requires |s.entities| <= maxEntities && Sound(s.entities.Keys, s.parents, maxDepth)
    ensures ApplyPatch(s, PatchOf(im, plans).operations, maxEntities, maxDepth).Ok? <==>
      && |s.entities| + |im.entities| <= maxEntities
      && forall k | k in Keys(im) :: Height(ParentGraph(im), k) <= maxDepth
  {
    CompiledLinked(pf, im, view, attempts, base, plans);
    AcceptedIff(ParentGraph(im), s, plans, maxEntities, maxDepth);
    forall k | k in Keys(im) ensures exists x :: 0 <= x < |plans| && plans[x].key == k {
      var y :| IsPlanOf(plans, y, k);
    }
  }

  lemma {:induction false} AcceptedIff(
    g: map<Text, Text>, s: Scene, plans: seq<EntityPlan>, maxEntities: nat, maxDepth: nat)
    requires Linked(g, plans) && Acyclic(g) && WellFormedScene(s) && s.entities.Keys !! Ids(plans)
    requires |s.entities| <= maxEntities && Sound(s.entities.Keys, s.parents, maxDepth)
    ensures ApplyPatch(s, Creates(plans) + Reparents(plans, plans), maxEntities, maxDepth).Ok? <==>
      && |s.entities| + |plans| <= maxEntities
      && forall x | 0 <= x < |plans| :: Height(g, plans[x].key) <= maxDepth
  {
    if |s.entities| + |plans| <= maxEntities {
      RunLinked(g, s, plans, maxEntities);
      ExtendedSoundIff(g, s, plans, maxDepth);
    } else {
      CreatesOverCapacity(s, plans, maxEntities);
      ApplyAllAppend(s, Creates(plans), Reparents(plans, plans), maxEntities);
    }
  }
}
