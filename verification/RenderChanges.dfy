/** Which entities a patch marks for the next render extraction, and the bound on them (world.rs). */
module RenderChanges {
  import opened Machine
  import opened FunctionalGraph
  import opened Protocol
  import opened Planning
  import opened Relations
  import opened Emission
  import opened CompiledPatch
  import opened Hierarchy
  import opened SceneApplication

  /** Entities whose world transform must be recomputed with their descendants, and entities changed directly. */
  datatype Marks = Marks(dirty: set<EntityId>, changed: set<EntityId>)

  function ComponentOf(s: Scene, id: EntityId, kind: ComponentKind): Option<Component> {
    if id in s.entities && kind in s.entities[id] then Some(s.entities[id][kind]) else None
  }

  /** What one operation marks, given the scene before it. */
  function Mark(s: Scene, m: Marks, o: Operation): Marks {
    match o
    case Create(id, _) => Marks(m.dirty + {id}, m.changed + {id})
    case Delete(id) => Marks(m.dirty - {id}, m.changed + {id})
    case SetComponent(id, c) =>
      var moved := c.Kind().TransformKind? && ComponentOf(s, id, TransformKind) != Some(c);
      Marks(if moved then m.dirty + {id} else m.dirty, if c.Kind().NameKind? then m.changed else m.changed + {id})
    case RemoveComponent(id, kind) =>
      Marks(if kind.TransformKind? then m.dirty + {id} else m.dirty,
            if kind.NameKind? then m.changed else m.changed + {id})
    case Reparent(id, parent) =>
      var before := if id in s.parents then Some(s.parents[id]) else None;
      if before != parent then m.(dirty := m.dirty + {id}) else m
  }

  function MarkAll(s: Scene, ops: seq<Operation>, m: Marks, maxEntities: nat): Marks
    decreases |ops|
  {
    if ops == [] then m
    else
      match ApplyOperation(s, ops[0], maxEntities)
      case Err(_) => m
      case Ok(next) => MarkAll(next, ops[1..], Mark(s, m, ops[0]), maxEntities)
  }

  ghost predicate Descends(parents: map<EntityId, EntityId>, id: EntityId, roots: set<EntityId>) {
    exists r | r in roots :: Reaches(parents, id, r)
  }

  /** Live entities at or below a dirty one. */
  ghost function Affected(t: Scene, dirty: set<EntityId>): set<EntityId> {
    set id | id in t.entities && Descends(t.parents, id, dirty)
  }

  /** Everything a patch adds to the pending render changes. */
  ghost function Changes(s: Scene, ops: seq<Operation>, t: Scene, maxEntities: nat): set<EntityId> {
    var m := MarkAll(s, ops, Marks({}, {}), maxEntities);
    m.changed + Affected(t, m.dirty)
  }

  /** Whether the world transform of an entity in a scene can be composed without overflow. */
  type Composes = (Scene, EntityId) -> bool

  /** Every entity whose transform a patch recomputes can be composed in the resulting scene. */
  ghost predicate AllCompose(s: Scene, ops: seq<Operation>, t: Scene, maxEntities: nat, composes: Composes) {
    forall id | id in Affected(t, MarkAll(s, ops, Marks({}, {}), maxEntities).dirty) :: composes(t, id)
  }

  /** The patch is applied if its operations, its hierarchy, its transforms and the pending render changes allow it. */
  ghost predicate Accepted(
    s: Scene, pending: set<EntityId>, ops: seq<Operation>, maxEntities: nat, maxDepth: nat, maxPending: nat,
    composes: Composes)
  {
    var t := ApplyPatch(s, ops, maxEntities, maxDepth);
    t.Ok? && AllCompose(s, ops, t.value, maxEntities, composes)
    && |pending + Changes(s, ops, t.value, maxEntities)| <= maxPending
  }

  // ----- compiled patches -----

  predicate Concerns(o: Operation, ids: set<EntityId>) {
    (o.Create? && o.entityId in ids) || (o.Reparent? && o.entityId in ids)
  }

  lemma {:induction false} MarksWithin(s: Scene, ops: seq<Operation>, m: Marks, ids: set<EntityId>, maxEntities: nat)
    requires forall o | o in ops :: Concerns(o, ids)
    requires m.dirty <= ids && m.changed <= ids
    ensures var r := MarkAll(s, ops, m, maxEntities); r.dirty <= ids && r.changed <= ids
    decreases |ops|
  {
    if ops != [] && ApplyOperation(s, ops[0], maxEntities).Ok? {
      assert Concerns(ops[0], ids);
      MarksWithin(ApplyOperation(s, ops[0], maxEntities).value, ops[1..], Mark(s, m, ops[0]), ids, maxEntities);
    }
  }

  lemma {:induction false} MarksGrow(s: Scene, ops: seq<Operation>, m: Marks, maxEntities: nat)
    requires forall o | o in ops :: !o.Delete?
    ensures m.changed <= MarkAll(s, ops, m, maxEntities).changed && m.dirty <= MarkAll(s, ops, m, maxEntities).dirty
    decreases |ops|
  {
    if ops != [] && ApplyOperation(s, ops[0], maxEntities).Ok? {
      MarksGrow(ApplyOperation(s, ops[0], maxEntities).value, ops[1..], Mark(s, m, ops[0]), maxEntities);
    }
  }

  lemma MarkFirst(s: Scene, o: Operation, rest: seq<Operation>, next: Scene, m: Marks, maxEntities: nat)
    requires ApplyOperation(s, o, maxEntities) == Ok(next)
    ensures MarkAll(s, [o] + rest, m, maxEntities) == MarkAll(next, rest, Mark(s, m, o), maxEntities)
  {
    assert ([o] + rest)[1..] == rest;
  }

  lemma FirstApplies(s: Scene, o: Operation, rest: seq<Operation>, maxEntities: nat) returns (next: Scene)
    requires ApplyAll(s, [o] + rest, maxEntities).Ok?
    ensures ApplyOperation(s, o, maxEntities) == Ok(next) && ApplyAll(next, rest, maxEntities).Ok?
  {
    assert ([o] + rest)[1..] == rest;
    next := ApplyOperation(s, o, maxEntities).value;
  }

  /** Every created entity is marked. */
  lemma {:induction false} CreatesMarked(
    s: Scene, plans: seq<EntityPlan>, rest: seq<Operation>, m: Marks, maxEntities: nat)
    requires ApplyAll(s, Creates(plans) + rest, maxEntities).Ok? && forall o | o in Creates(plans) + rest :: !o.Delete?
    ensures Ids(plans) <= MarkAll(s, Creates(plans) + rest, m, maxEntities).changed
    ensures Ids(plans) <= MarkAll(s, Creates(plans) + rest, m, maxEntities).dirty
    decreases |plans|
  {
    if plans == [] {
      assert Ids(plans) == {};
    } else {
      var o, tail := CreateOf(plans[0]), Creates(plans[1..]) + rest;
      assert Creates(plans) + rest == [o] + tail;
      var next := FirstApplies(s, o, tail, maxEntities);
      MarkFirst(s, o, tail, next, m, maxEntities);
      CreatesMarked(next, plans[1..], rest, Mark(s, m, o), maxEntities);
      MarksGrow(next, tail, Mark(s, m, o), maxEntities);
      IdsOfFirst(plans);
    }
  }

  lemma {:induction false} CreatesConcern(plans: seq<EntityPlan>, ids: set<EntityId>, o: Operation)
    requires Ids(plans) <= ids && o in Creates(plans)
    ensures Concerns(o, ids)
  {
    assert plans[0].entityId in Ids(plans);
    if o != CreateOf(plans[0]) {
      assert Ids(plans[1..]) <= Ids(plans);
      CreatesConcern(plans[1..], ids, o);
    }
  }

  lemma {:induction false} ReparentsConcern(
    children: seq<EntityPlan>, plans: seq<EntityPlan>, ids: set<EntityId>, o: Operation)
    requires Ids(children) <= ids && o in Reparents(children, plans)
    ensures Concerns(o, ids)
    decreases |children|
  {
    assert children[0].entityId in Ids(children);
    if o in Reparents(children[1..], plans) {
      assert Ids(children[1..]) <= Ids(children);
      ReparentsConcern(children[1..], plans, ids, o);
    }
  }

  /** Nothing of the old scene is below a created entity. */
  lemma {:induction false} OldNotAffected(s: Scene, plans: seq<EntityPlan>, dirty: set<EntityId>, id: EntityId)
    requires WellFormedScene(s) && s.entities.Keys !! Ids(plans) && dirty <= Ids(plans) && id in s.entities
    ensures !Descends(Extended(s, plans).parents, id, dirty)
  {
    var g := Extended(s, plans).parents;
    EdgesKeys(plans, plans);
    forall r | r in dirty ensures !Reaches(g, id, r) {
      if Reaches(g, id, r) {
        var n: nat :| Walk(g, id, n) == Some(r);
        ClosedSetTraps(g, s.entities.Keys, id, n);
      }
    }
  }

  /** A compiled patch marks exactly the entities it creates. */
  lemma {:induction false} CompiledPatchChanges(
    pf: Platform, im: Imagination, view: SceneView, attempts: nat, base: seq<EntityPlan>, plans: seq<EntityPlan>,
    s: Scene, maxEntities: nat)
    requires Compiled(pf, im, view, attempts, base, plans) && Viewed(s, view)
    requires |s.entities| + |im.entities| <= maxEntities
    ensures ApplyAll(s, PatchOf(im, plans).operations, maxEntities) == Ok(Extended(s, plans))
    ensures Changes(s, PatchOf(im, plans).operations, Extended(s, plans), maxEntities) == Ids(plans)
    ensures Affected(Extended(s, plans), MarkAll(s, PatchOf(im, plans).operations, Marks({}, {}), maxEntities).dirty)
            == Ids(plans)
  {
    CompiledPatchRuns(pf, im, view, attempts, base, plans, s, maxEntities);
    CompiledLinked(pf, im, view, attempts, base, plans);
    ChangesAreCreated(s, plans, maxEntities);
  }

  lemma {:induction false} ChangesAreCreated(s: Scene, plans: seq<EntityPlan>, maxEntities: nat)
    requires WellFormedScene(s) && s.entities.Keys !! Ids(plans)
    requires ApplyAll(s, Creates(plans) + Reparents(plans, plans), maxEntities) == Ok(Extended(s, plans))
    ensures Changes(s, Creates(plans) + Reparents(plans, plans), Extended(s, plans), maxEntities) == Ids(plans)
    ensures Affected(Extended(s, plans),
              MarkAll(s, Creates(plans) + Reparents(plans, plans), Marks({}, {}), maxEntities).dirty) == Ids(plans)
  {
    CreatesAreMarks(s, plans, maxEntities);
    AffectedAreCreated(s, plans);
  }

  /** The operations of a compiled patch mark each created entity both ways, and nothing else. */
  lemma {:induction false} CreatesAreMarks(s: Scene, plans: seq<EntityPlan>, maxEntities: nat)
    requires ApplyAll(s, Creates(plans) + Reparents(plans, plans), maxEntities).Ok?
    ensures MarkAll(s, Creates(plans) + Reparents(plans, plans), Marks({}, {}), maxEntities)
      == Marks(Ids(plans), Ids(plans))
  {
    var ops, ids := Creates(plans) + Reparents(plans, plans), Ids(plans);
    forall o | o in ops ensures Concerns(o, ids) {
      if o in Creates(plans) { CreatesConcern(plans, ids, o); } else { ReparentsConcern(plans, plans, ids, o); }
    }
    MarksWithin(s, ops, Marks({}, {}), ids, maxEntities);
    CreatesMarked(s, plans, Reparents(plans, plans), Marks({}, {}), maxEntities);
  }

  /** At or below the created entities are exactly the created entities. */
  lemma {:induction false} AffectedAreCreated(s: Scene, plans: seq<EntityPlan>)
    requires WellFormedScene(s) && s.entities.Keys !! Ids(plans)
    ensures Affected(Extended(s, plans), Ids(plans)) == Ids(plans)
  {
    var ids, t := Ids(plans), Extended(s, plans);
    CreatedKeys(plans);
    forall id | id in Affected(t, ids) ensures id in ids {
      if id in s.entities { OldNotAffected(s, plans, ids, id); }
    }
    forall id | id in ids ensures id in Affected(t, ids) { ReachesSelf(t.parents, id); }
  }

  /**
   * The world accepts a compiled patch exactly when the entity capacity, the hierarchy depth and the bound on pending
   * render changes allow its new entities, and their world transforms can be composed.
   */
  lemma {:induction false} CompiledPatchFitsIff(
    pf: Platform, im: Imagination, view: SceneView, attempts: nat, base: seq<EntityPlan>, plans: seq<EntityPlan>,
    s: Scene, pending: set<EntityId>, maxEntities: nat, maxDepth: nat, maxPending: nat, composes: Composes)
    requires Compiled(pf, im, view, attempts, base, plans) && Viewed(s, view)
    requires |s.entities| <= maxEntities && Sound(s.entities.Keys, s.parents, maxDepth)
    ensures Accepted(s, pending, PatchOf(im, plans).operations, maxEntities, maxDepth, maxPending, composes) <==>
      && |s.entities| + |im.entities| <= maxEntities
      && (forall k | k in Keys(im) :: Height(ParentGraph(im), k) <= maxDepth)
      && |pending + Ids(plans)| <= maxPending
      && (forall p | p in plans :: composes(Extended(s, plans), p.entityId))
  {
    var ops := PatchOf(im, plans).operations;
    CompiledPatchAcceptedIff(pf, im, view, attempts, base, plans, s, maxEntities, maxDepth);
    if ApplyPatch(s, ops, maxEntities, maxDepth).Ok? {
      CompiledPatchChanges(pf, im, view, attempts, base, plans, s, maxEntities);
      AppliedFits(s, pending, ops, Extended(s, plans), plans, maxEntities, maxDepth, maxPending, composes);
    }
  }

  /** What is left to decide about a patch whose operations and hierarchy are fine. */
  lemma {:induction false} AppliedFits(
    s: Scene, pending: set<EntityId>, ops: seq<Operation>, t: Scene, plans: seq<EntityPlan>, maxEntities: nat,
    maxDepth: nat, maxPending: nat, composes: Composes)
    requires ApplyPatch(s, ops, maxEntities, maxDepth).Ok? && ApplyAll(s, ops, maxEntities) == Ok(t)
    requires Changes(s, ops, t, maxEntities) == Ids(plans)
    requires Affected(t, MarkAll(s, ops, Marks({}, {}), maxEntities).dirty) == Ids(plans)
    ensures Accepted(s, pending, ops, maxEntities, maxDepth, maxPending, composes) <==>
      |pending + Ids(plans)| <= maxPending && forall p | p in plans :: composes(t, p.entityId)
  {
    ComposeAll(t, plans, composes);
  }

  lemma ComposeAll(t: Scene, plans: seq<EntityPlan>, composes: Composes)
    ensures (forall id | id in Ids(plans) :: composes(t, id)) <==> (forall p | p in plans :: composes(t, p.entityId))
  {
    forall p | p in plans ensures p.entityId in Ids(plans) {}
  }
}
