/**
 * The recorded world over real scenes and patches (world.rs, recorded.rs): its acceptance is the world's own, and a
 * produced recovery point of it need not be restorable.
 */
module SceneReplay {
  import opened Machine
  import opened FunctionalGraph
  import opened Protocol
  import opened Hierarchy
  import opened SceneApplication
  import opened RenderChanges
  import opened ReplayLog
  import opened Recovery

  type Content = Protocol.Patch

  /** A scene patch under the key and the transaction it is recorded by. */
  function Recorded(p: Content): ReplayLog.Patch<Content> { ReplayLog.Patch(p.idempotencyKey, p.transactionId, p) }

  datatype WorldConfig = WorldConfig(limits: RuntimeLimits, maxEntities: nat, maxDepth: nat)

  /** What the world takes from outside its own logic. */
  datatype Services = Services(
    composes: Composes, encodes: Content -> bool, sceneHash: Scene -> nat, entryHash: Entry<Content> -> nat,
    size: Content -> nat)

  /** A patch with a new key in a world with room for its record: validation, exact base, preflight. */
  ghost function Step(c: WorldConfig, composes: Composes, s: Scene, revision: nat, p: Content): Option<Scene> {
    var t := SceneApplication.ApplyPatch(s, p.operations, c.maxEntities, c.maxDepth);
    if ValidatePatch(p, c.limits).None? && p.baseRevision == revision < U64_MAX
       && t.Ok? && AllCompose(s, p.operations, t.value, c.maxEntities, composes)
    then Some(t.value) else None
  }

  ghost function Changed(c: WorldConfig, s: Scene, p: Content): set<EntityId> {
    var t := SceneApplication.ApplyPatch(s, p.operations, c.maxEntities, c.maxDepth);
    if t.Ok? then Changes(s, p.operations, t.value, c.maxEntities) else {}
  }

  const NOTHING: Scene := Scene(map[], map[])

  /** Scenes changed by scene patches, starting from nothing. */
  ghost function ScenePlatform(c: WorldConfig, v: Services): ReplayLog.Platform<Scene, Content> {
    ReplayLog.Platform(NOTHING,
      (p: ReplayLog.Patch<Content>) => ValidatePatch(p.content, c.limits).None?,
      (p: ReplayLog.Patch<Content>) => v.encodes(p.content),
      (s: Scene, revision: nat, p: ReplayLog.Patch<Content>) => Step(c, v.composes, s, revision, p.content),
      (s: Scene, revision: nat, p: ReplayLog.Patch<Content>) => Changed(c, s, p.content),
      v.sceneHash, v.entryHash, (p: ReplayLog.Patch<Content>) => v.size(p.content))
  }

  /**
   * The recorded world accepts a new key exactly when the patch is valid, made for the current revision, accepted by
   * the scene, and there is room for its record.
   */
  lemma {:induction false} RecordedAcceptsIff(
    c: WorldConfig, v: Services, b: Bounds, w: World<Scene, Content>, patch: Content)
    ensures var applied := WorldApply(ScenePlatform(c, v), b, w, Recorded(patch));
      && (applied.Some? <==>
          && |w.records| < b.maxRecords && ValidatePatch(patch, c.limits).None?
          && patch.baseRevision == w.revision < U64_MAX
          && Accepted(w.scene, w.pending, patch.operations, c.maxEntities, c.maxDepth, b.maxPending, v.composes))
      && (applied.Some? ==>
          && SceneApplication.ApplyPatch(w.scene, patch.operations, c.maxEntities, c.maxDepth)
             == Ok(applied.value.scene)
          && applied.value.revision == w.revision + 1)
  {
    var p := ScenePlatform(c, v);
    assert p.step(w.scene, w.revision, Recorded(patch)) == Step(c, v.composes, w.scene, w.revision, patch);
    assert p.changed(w.scene, w.revision, Recorded(patch)) == Changed(c, w.scene, patch);
  }

  // ----- one creation after another -----

  function Adding(id: EntityId): seq<Operation> { [Create(id, [Name([97])])] }

  const CREATION_BYTES: nat := 99

  /** The patch that creates entity `n` at revision `n - 1`. */
  function Creation(n: nat): Content
    requires n > 0
  {
    Protocol.Patch(SCHEMA_V1, n, n, n - 1, MustApply, PatchBudget(1, 1, 1, CREATION_BYTES), Adding(n))
  }

  lemma {:induction false} CreationValid(n: nat, limits: RuntimeLimits)
    requires n > 0 && limits.maxDecodedBytes >= CREATION_BYTES
    ensures ValidatePatch(Creation(n), limits).None?
  {
    var ops, name := Adding(n), Name([97]);
    SumPush([], name, ComponentText);
    SumPush([], name, ComponentBytes);
    assert [] + [name] == [name] && [name][1..] == [] && ops[1..] == [];
    SumPush([], ops[0], OperationText);
    SumPush([], ops[0], OperationBytes);
    SumPush([], ops[0], OperationComponents);
    assert [] + [ops[0]] == ops;
    assert CheckComponents([name], {}).None?;
    assert FirstBadOperation(ops, limits).None?;
  }

  lemma {:induction false} FlatHeights(id: EntityId)
    ensures Height(map[], id) == 0
  {
  }

  lemma {:induction false} OnlyItself(id: EntityId, root: EntityId)
    requires Reaches(map[], id, root)
    ensures id == root
  {
    var n: nat :| Walk(map[], id, n) == Some(root);
  }

  /** Adding an entity to a scene without edges changes that entity and no other. */
  lemma {:induction false} AddingWorks(s: Scene, id: EntityId, maxEntities: nat, maxDepth: nat)
    requires s.parents == map[] && id !in s.entities && |s.entities| < maxEntities
    ensures var t := s.(entities := s.entities[id := ByKind([Name([97])])]);
      && SceneApplication.ApplyPatch(s, Adding(id), maxEntities, maxDepth) == Ok(t)
      && Changes(s, Adding(id), t, maxEntities) == {id}
  {
    var t := s.(entities := s.entities[id := ByKind([Name([97])])]);
    var ops := Adding(id);
    assert ops[1..] == [];
    assert ApplyAll(s, ops, maxEntities) == Ok(t);
    assert Sound(t.entities.Keys, t.parents, maxDepth) by {
      forall x | x in t.entities ensures Height(t.parents, x) <= maxDepth { FlatHeights(x); }
    }
    assert MarkAll(s, ops, Marks({}, {}), maxEntities) == Marks({id}, {id});
    forall x | x in Affected(t, {id}) ensures x == id {
      var r :| r in {id} && Reaches(t.parents, x, r);
      OnlyItself(x, r);
    }
  }

  // ----- the engine after `n` creations -----

  ghost function FirstIds(n: nat): set<EntityId> { if n == 0 then {} else FirstIds(n - 1) + {n} }

  lemma {:induction false} FirstIdsAre(n: nat)
    ensures |FirstIds(n)| == n && forall x: nat :: x in FirstIds(n) <==> 1 <= x <= n
  {
    if n > 0 { FirstIdsAre(n - 1); }
  }

  function Holding(n: nat): Scene {
    if n == 0 then NOTHING else Scene(Holding(n - 1).entities[n := ByKind([Name([97])])], map[])
  }

  lemma {:induction false} HoldingIds(n: nat)
    ensures Holding(n).entities.Keys == FirstIds(n) && |Holding(n).entities| == n && Holding(n).parents == map[]
  {
    FirstIdsAre(n);
    if n > 0 { HoldingIds(n - 1); }
    assert |Holding(n).entities| == |Holding(n).entities.Keys|;
  }

  /** A creation is accepted while nothing is pending, and refused while as much is pending as may be. */
  lemma {:induction false} CreationAcceptedIff(
    n: nat, c: WorldConfig, pending: set<EntityId>, maxPending: nat, composes: Composes)
    requires n < c.maxEntities && n + 1 !in pending && forall s, id :: composes(s, id)
    ensures Accepted(Holding(n), pending, Adding(n + 1), c.maxEntities, c.maxDepth, maxPending, composes) <==>
      |pending| < maxPending
  {
    HoldingIds(n);
    FirstIdsAre(n);
    AddingWorks(Holding(n), n + 1, c.maxEntities, c.maxDepth);
    assert |pending + {n + 1}| == |pending| + 1;
  }

  /** `n` creations one after the other, each handed to the renderer at once. */
  ghost function Created(p: ReplayLog.Platform<Scene, Content>, b: Bounds, n: nat): Engine<Scene, Content> {
    if n == 0 then NewEngine(p) else Recovery.ApplyPatch(p, b, Created(p, b, n - 1), Recorded(Creation(n)), Applied).0
  }

  /** `n` creations of at most `bytes` each stay within every bound. */
  ghost predicate Roomy(c: WorldConfig, v: Services, b: Bounds, n: nat, bytes: nat) {
    && n <= b.maxRecords && n <= b.maxEntries && n <= c.maxEntities && c.limits.maxDecodedBytes >= CREATION_BYTES
    && (forall s, id :: v.composes(s, id))
    && (forall i: nat | 1 <= i <= n :: v.encodes(Creation(i)) && v.size(Creation(i)) <= bytes)
    && ENVELOPE_BYTES + bytes <= b.maxEntryBytes && HEADER_BYTES + n * (ENVELOPE_BYTES + bytes) <= b.maxLogBytes
  }

  /** All creations were applied, and nothing is pending. */
  ghost predicate Stands(p: ReplayLog.Platform<Scene, Content>, e: Engine<Scene, Content>, n: nat, bytes: nat) {
    && e.world.scene == Holding(n) && e.world.revision == n && e.world.records.Keys == FirstIds(n)
    && e.world.pending == {}
    && |e.log| == n && e.nextFrame == 1 && e.rendererRevision == n && SceneOf(p, e.log) == Holding(n)
    && Touched(p, e.log) == FirstIds(n) && LogBytes(p, e.log) <= HEADER_BYTES + n * (ENVELOPE_BYTES + bytes)
  }

  lemma {:induction false} RoomyBelow(c: WorldConfig, v: Services, b: Bounds, n: nat, bytes: nat)
    requires n > 0 && Roomy(c, v, b, n, bytes)
    ensures Roomy(c, v, b, n - 1, bytes)
    ensures HEADER_BYTES + (n - 1) * (ENVELOPE_BYTES + bytes) + (ENVELOPE_BYTES + bytes) <= b.maxLogBytes
  {
    assert n * (ENVELOPE_BYTES + bytes) == (n - 1) * (ENVELOPE_BYTES + bytes) + (ENVELOPE_BYTES + bytes);
  }

  lemma {:induction false} CreationSteps(c: WorldConfig, v: Services, n: nat)
    requires 0 < n <= c.maxEntities && n <= U64_MAX && c.limits.maxDecodedBytes >= CREATION_BYTES
    requires forall s, id :: v.composes(s, id)
    ensures Step(c, v.composes, Holding(n - 1), n - 1, Creation(n)) == Some(Holding(n))
    ensures Changed(c, Holding(n - 1), Creation(n)) == {n}
  {
    HoldingIds(n - 1);
    FirstIdsAre(n - 1);
    CreationValid(n, c.limits);
    AddingWorks(Holding(n - 1), n, c.maxEntities, c.maxDepth);
  }

  /** The platform lets a patch turn scene `s` at `revision` into `t`, changing `id` alone. */
  ghost predicate Takes(
    p: ReplayLog.Platform<Scene, Content>, s: Scene, revision: nat, patch: ReplayLog.Patch<Content>, t: Scene,
    id: EntityId, bytes: nat)
  {
    && p.valid(patch) && p.encodes(patch) && p.size(patch) <= bytes
    && p.step(s, revision, patch) == Some(t) && p.changed(s, revision, patch) == {id}
  }

  lemma {:induction false} TakesCreation(c: WorldConfig, v: Services, b: Bounds, n: nat, bytes: nat)
    requires n > 0 && Roomy(c, v, b, n, bytes)
    ensures Takes(ScenePlatform(c, v), Holding(n - 1), n - 1, Recorded(Creation(n)), Holding(n), n, bytes)
  {
    CreationValid(n, c.limits);
    CreationSteps(c, v, n);
  }

  lemma {:induction false} TakenApplies(
    p: ReplayLog.Platform<Scene, Content>, b: Bounds, w: World<Scene, Content>, patch: ReplayLog.Patch<Content>,
    t: Scene, id: EntityId, bytes: nat)
    requires Takes(p, w.scene, w.revision, patch, t, id, bytes) && w.pending == {} && |w.records| < b.maxRecords
    ensures WorldApply(p, b, w, patch) == Some(World(t, w.revision + 1, w.records[patch.key := patch], {id}))
  {
    assert {} + {id} == {id} && |{id}| == 1;
  }

  lemma {:induction false} CreatedStands(c: WorldConfig, v: Services, b: Bounds, n: nat, bytes: nat)
    requires Roomy(c, v, b, n, bytes)
    ensures Stands(ScenePlatform(c, v), Created(ScenePlatform(c, v), b, n), n, bytes)
  {
    if n > 0 {
      var p := ScenePlatform(c, v);
      var e := Created(p, b, n - 1);
      RoomyBelow(c, v, b, n, bytes);
      CreatedStands(c, v, b, n - 1, bytes);
      TakesCreation(c, v, b, n, bytes);
      CreatedNext(p, b, e, n, bytes);
      ExtendedStands(p, e, n, bytes);
    }
  }

  /** The engine right after the creation of entity `n`. */
  ghost function Extended(p: ReplayLog.Platform<Scene, Content>, e: Engine<Scene, Content>, n: nat)
    : Engine<Scene, Content>
    requires n > 0
  {
    var patch := Recorded(Creation(n));
    Engine(
      World(Holding(n), n, e.world.records[n := patch], {}), e.log + [MakeEntry(p, e.log, patch, 1, Holding(n))], 1, n)
  }

  lemma {:induction false} CreatedNext(
    p: ReplayLog.Platform<Scene, Content>, b: Bounds, e: Engine<Scene, Content>, n: nat, bytes: nat)
    requires n > 0 && e == Created(p, b, n - 1) && Stands(p, e, n - 1, bytes) && n <= b.maxEntries && n <= b.maxRecords
    requires Takes(p, Holding(n - 1), n - 1, Recorded(Creation(n)), Holding(n), n, bytes)
    requires ENVELOPE_BYTES + bytes <= b.maxEntryBytes
    requires HEADER_BYTES + (n - 1) * (ENVELOPE_BYTES + bytes) + (ENVELOPE_BYTES + bytes) <= b.maxLogBytes
    ensures Created(p, b, n) == Extended(p, e, n)
  {
    var patch := Recorded(Creation(n));
    FirstIdsAre(n - 1);
    assert |e.world.records| == |e.world.records.Keys|;
    TakenApplies(p, b, e.world, patch, Holding(n), n, bytes);
    NewPatchApplies(p, b, e, patch, World(Holding(n), n, e.world.records[n := patch], {n}));
  }

  lemma {:induction false} ExtendedStands(
    p: ReplayLog.Platform<Scene, Content>, e: Engine<Scene, Content>, n: nat, bytes: nat)
    requires n > 0 && Stands(p, e, n - 1, bytes)
    requires Takes(p, Holding(n - 1), n - 1, Recorded(Creation(n)), Holding(n), n, bytes)
    ensures Stands(p, Extended(p, e, n), n, bytes)
  {
    var patch := Recorded(Creation(n));
    LogStands(p, e, MakeEntry(p, e.log, patch, 1, Holding(n)), n, bytes);
    assert e.world.records[n := patch].Keys == FirstIds(n - 1) + {n};
  }

  lemma {:induction false} LogStands(
    p: ReplayLog.Platform<Scene, Content>, e: Engine<Scene, Content>, entry: Entry<Content>, n: nat, bytes: nat)
    requires n > 0 && Stands(p, e, n - 1, bytes)
    requires Takes(p, Holding(n - 1), n - 1, entry.patch, Holding(n), n, bytes)
    ensures var log := e.log + [entry];
      && SceneOf(p, log) == Holding(n) && Touched(p, log) == FirstIds(n)
      && LogBytes(p, log) <= HEADER_BYTES + n * (ENVELOPE_BYTES + bytes)
  {
    var log := e.log + [entry];
    assert Front(log) == e.log && Last(log) == entry;
    assert n * (ENVELOPE_BYTES + bytes) == (n - 1) * (ENVELOPE_BYTES + bytes) + (ENVELOPE_BYTES + bytes);
  }

  lemma {:induction false} CreatedKeepsInv(p: ReplayLog.Platform<Scene, Content>, b: Bounds, n: nat)
    requires HEADER_BYTES <= b.maxLogBytes
    ensures Inv(p, b, Created(p, b, n))
  {
    if n > 0 {
      CreatedKeepsInv(p, b, n - 1);
      ApplyKeepsInv(p, b, Created(p, b, n - 1), Recorded(Creation(n)), Applied);
    }
  }

  /**
   * For every configuration, hash and size function that has room for `n` creations: the live engine applies and
   * renders all of them, and the point it then produces can be restored exactly when `n` changes may be pending at
   * once.
   */
  lemma {:induction false} CreatedRestoresIff(c: WorldConfig, v: Services, b: Bounds, n: nat, bytes: nat)
    requires Roomy(c, v, b, n, bytes)
    ensures var p := ScenePlatform(c, v);
      var e := Created(p, b, n);
      && e.world.scene == Holding(n) && e.world.revision == n == e.rendererRevision
      && PointAt(e, n).Ok?
      && (Restore(p, b, PointAt(e, n).value, true).Ok? <==> n <= b.maxPending)
      && (n > b.maxPending ==> Restore(p, b, PointAt(e, n).value, true) == Err(ReplayFailed))
  {
    var p := ScenePlatform(c, v);
    var e := Created(p, b, n);
    CreatedStands(c, v, b, n, bytes);
    CreatedKeepsInv(p, b, n);
    FirstIdsAre(n);
    assert e.log[..n] == e.log;
    RestoreIff(p, b, e, n, true);
    if n > b.maxPending { OverflowingHistoryFails(p, b, e, true); }
  }

  // ----- two patches -----

  const ONE_PENDING: Bounds := Bounds(10, 1, 10, 1000, 10000)

  /**
   * Two accepted patches that each create one entity, under a bound of one pending change and with any hashes and any
   * small encodings: the live engine is at revision two, and the recovery point it produces cannot be restored.
   */
  lemma {:induction false} ProducedPointCanFailToRestore(c: WorldConfig, v: Services)
    requires c.limits.maxDecodedBytes >= CREATION_BYTES && c.maxEntities >= 2 && forall s, id :: v.composes(s, id)
    requires forall i: nat | 1 <= i <= 2 :: v.encodes(Creation(i)) && v.size(Creation(i)) <= 800
    ensures var p := ScenePlatform(c, v);
      var e := Created(p, ONE_PENDING, 2);
      && e.world.revision == 2 == e.rendererRevision && PointAt(e, 2).Ok?
      && Restore(p, ONE_PENDING, PointAt(e, 2).value, true) == Err(ReplayFailed)
  {
    CreatedRestoresIff(c, v, ONE_PENDING, 2, 800);
  }
}
