/** No change of the scene escapes the next render extraction, whatever the patch does (world.rs). */
module RenderCoverage {
  import opened Machine
  import opened FunctionalGraph
  import opened Protocol
  import opened SceneApplication
  import opened RenderChanges

  /** What is extracted of an entity by itself: everything but its name. */
  function Shown(s: Scene, id: EntityId): Option<Components> {
    if id in s.entities then Some(s.entities[id] - {NameKind}) else None
  }

  function ParentOf(s: Scene, id: EntityId): Option<EntityId> {
    if id in s.parents then Some(s.parents[id]) else None
  }

  /** What an entity adds to its world transform and to those below it. */
  function Posed(s: Scene, id: EntityId): Option<(Option<Component>, Option<EntityId>)> {
    if id in s.entities then Some((ComponentOf(s, id, TransformKind), ParentOf(s, id))) else None
  }

  /** Whatever is different about `id` since `origin` has been marked. */
  ghost predicate Noted(origin: Scene, s: Scene, m: Marks, id: EntityId) {
    && (Shown(s, id) != Shown(origin, id) ==> id in m.changed)
    && (id in s.entities && Posed(s, id) != Posed(origin, id) ==> id in m.dirty)
  }

  lemma {:induction false} OthersKept(s: Scene, o: Operation, next: Scene, id: EntityId, maxEntities: nat)
    requires ApplyOperation(s, o, maxEntities) == Ok(next) && id != o.entityId
    ensures (id in next.entities <==> id in s.entities)
    ensures id in s.entities ==> next.entities[id] == s.entities[id]
    ensures ParentOf(next, id) == ParentOf(s, id)
  {
    match o
    case Create(_, _) =>
    case Delete(_) =>
    case SetComponent(_, _) =>
    case RemoveComponent(_, _) =>
    case Reparent(_, _) =>
  }

  lemma {:induction false} NamesNotShown(cs: Components, c: Component)
    ensures c.Kind().NameKind? ==> cs[NameKind := c] - {NameKind} == cs - {NameKind}
    ensures (cs - {NameKind}) - {NameKind} == cs - {NameKind}
  {
  }

  lemma {:induction false} NotedStep(
    origin: Scene, s: Scene, o: Operation, next: Scene, m: Marks, id: EntityId, maxEntities: nat)
    requires Noted(origin, s, m, id) && ApplyOperation(s, o, maxEntities) == Ok(next)
    ensures Noted(origin, next, Mark(s, m, o), id)
  {
    if id != o.entityId {
      OthersKept(s, o, next, id, maxEntities);
    } else if o.SetComponent? {
      NamesNotShown(s.entities[id], o.component);
    } else if o.RemoveComponent? {
      NamesNotShown(s.entities[id], s.entities[id][o.kind]);
    }
  }

  lemma {:induction false} NotedAll(
    origin: Scene, s: Scene, ops: seq<Operation>, m: Marks, t: Scene, id: EntityId, maxEntities: nat)
    requires Noted(origin, s, m, id) && ApplyAll(s, ops, maxEntities) == Ok(t)
    ensures Noted(origin, t, MarkAll(s, ops, m, maxEntities), id)
    decreases |ops|
  {
    if ops != [] {
      var next := ApplyOperation(s, ops[0], maxEntities).value;
      NotedStep(origin, s, ops[0], next, m, id, maxEntities);
      NotedAll(origin, next, ops[1..], Mark(s, m, ops[0]), t, id, maxEntities);
    }
  }

  /**
   * After any sequence of operations every entity that appeared, disappeared or shows different components is among
   * the changes, and so is every entity at or below one whose transform or parent differs.
   */
  lemma {:induction false} ChangesCover(
    s: Scene, ops: seq<Operation>, t: Scene, id: EntityId, above: EntityId, maxEntities: nat)
    requires ApplyAll(s, ops, maxEntities) == Ok(t)
    ensures Shown(t, id) != Shown(s, id) ==> id in Changes(s, ops, t, maxEntities)
    ensures id in t.entities && above in t.entities && Reaches(t.parents, id, above) ==>
      (Posed(t, above) != Posed(s, above) ==> id in Changes(s, ops, t, maxEntities))
  {
    var m := MarkAll(s, ops, Marks({}, {}), maxEntities);
    NotedAll(s, s, ops, Marks({}, {}), t, id, maxEntities);
    NotedAll(s, s, ops, Marks({}, {}), t, above, maxEntities);
    if id in t.entities && above in m.dirty && Reaches(t.parents, id, above) {
      assert Descends(t.parents, id, m.dirty);
    }
  }
}
