/** Public messages and their admission rules (crates/cogniform-protocol). */
module Protocol {
  import opened Machine

  type Text = seq<Byte>
  type EntityId = nat

  predicate Continuation(b: Byte) { 0x80 <= b < 0xC0 }

  /** The length of the UTF-8 character that `t` begins with, or zero (table 3-7 of the Unicode Standard). */
  function CharLength(t: Text): (n: nat)
    ensures n <= |t|
  {
    if t == [] then 0
    else if t[0] < 0x80 then 1
    else if |t| >= 2 && 0xC2 <= t[0] < 0xE0 && Continuation(t[1]) then 2
    else if |t| >= 3 && 0xE0 <= t[0] < 0xF0 && Continuation(t[1]) && Continuation(t[2])
         && (t[0] == 0xE0 ==> t[1] >= 0xA0) && (t[0] == 0xED ==> t[1] < 0xA0) then 3
    else if |t| >= 4 && 0xF0 <= t[0] < 0xF5 && Continuation(t[1]) && Continuation(t[2]) && Continuation(t[3])
         && (t[0] == 0xF0 ==> t[1] >= 0x90) && (t[0] == 0xF4 ==> t[1] < 0x90) then 4
    else 0
  }

  predicate Utf8(t: Text) { t == [] || (CharLength(t) > 0 && Utf8(t[CharLength(t)..])) }

  /** `SceneText::try_from` takes a string that is not empty and has no NUL. */
  predicate SceneText(t: Text) { t != [] && 0 !in t && Utf8(t) }

  lemma {:induction false} AsciiIsUtf8(t: Text)
    requires forall i | 0 <= i < |t| :: t[i] < 0x80
    ensures Utf8(t)
  {
    if t != [] { AsciiIsUtf8(t[1..]); }
  }

  /** An IEEE-754 single, as its bit pattern. */
  type F32 = nat
  const F32_ZERO: F32 := 0
  const F32_NEGATIVE_ZERO: F32 := 0x8000_0000
  const F32_HALF: F32 := 0x3F00_0000
  const F32_ONE: F32 := 0x3F80_0000

  predicate IsZero(x: F32) { x == F32_ZERO || x == F32_NEGATIVE_ZERO }

  /** The exponent field is not all ones. */
  predicate IsFinite(x: F32) { (x / 0x80_0000) % 0x100 != 0xFF }

  /** `FiniteF32::new`: rejects non-finite values and drops the sign of zero. */
  function FiniteF32(x: F32): Option<F32> {
    if !IsFinite(x) then None else if IsZero(x) then Some(F32_ZERO) else Some(x)
  }

  datatype Vec3 = Vec3(x: F32, y: F32, z: F32)
  datatype Quaternion = Quaternion(x: F32, y: F32, z: F32, w: F32)
  datatype Transform = Transform(translation: Vec3, rotation: Quaternion, scale: Vec3)
  datatype Shape = Cuboid | Plane | Sphere
  datatype Primitive = Primitive(shape: Shape, dimensions: Vec3)
  datatype Material = Material(r: F32, g: F32, b: F32, a: F32, metallic: F32, roughness: F32)

  predicate RotationNonZero(q: Quaternion) {
    !(IsZero(q.x) && IsZero(q.y) && IsZero(q.z) && IsZero(q.w))
  }

  datatype RuntimeLimits = RuntimeLimits(
    maxEncodedBytes: NonZero64,
    maxDecodedBytes: NonZero64,
    maxJsonNestingDepth: NonZero16,
    maxOperations: NonZero32,
    maxComponents: NonZero32,
    maxComponentsPerEntity: NonZero32,
    maxTextBytes: NonZero64,
    maxDiagnostics: NonZero32,
    maxQueueCapacity: NonZero32,
    maxImaginationEntities: NonZero32,
    maxImaginationRelations: NonZero32,
    maxImaginationConstraints: NonZero32,
    maxQueryEntities: NonZero32,
    maxObservationWidth: NonZero32,
    maxObservationHeight: NonZero32,
    maxObservationPixels: NonZero64)

  datatype PatchBudget = PatchBudget(
    maxOperations: NonZero32, maxComponents: NonZero32, maxTextBytes: NonZero64, maxDecodedBytes: NonZero64)

  datatype Delivery = MustApply | LatestWins(supersessionKey: Text) | BestEffort {
    function TextBytes(): nat { if LatestWins? then |supersessionKey| else 0 }
    function LogicalBytes(): nat { if LatestWins? then 1 + 4 + |supersessionKey| else 1 }
  }

  // ----- scene patches (message.rs) -----

  datatype Component =
    | Name(text: Text)
    | LocalTransform(transform: Transform)
    | PrimitiveShape(primitive: Primitive)
    | SurfaceMaterial(material: Material)
  {
    predicate Valid() { LocalTransform? ==> RotationNonZero(transform.rotation) }
    function Kind(): ComponentKind {
      match this
      case Name(_) => NameKind
      case LocalTransform(_) => TransformKind
      case PrimitiveShape(_) => PrimitiveKind
      case SurfaceMaterial(_) => MaterialKind
    }
  }

  datatype ComponentKind = NameKind | TransformKind | PrimitiveKind | MaterialKind

  datatype Operation =
    | Create(entityId: EntityId, components: seq<Component>)
    | Delete(entityId: EntityId)
    | SetComponent(entityId: EntityId, component: Component)
    | RemoveComponent(entityId: EntityId, kind: ComponentKind)
    | Reparent(entityId: EntityId, parentId: Option<EntityId>)
  {
    function Check(): Option<Diagnostic> {
      match this
      case Create(_, cs) => CheckComponents(cs, {})
      case SetComponent(_, c) => if c.Valid() then None else Some(InvalidComponentValue)
      case Reparent(id, p) => if p == Some(id) then Some(SelfParent) else None
      case _ => None
    }
  }

  function CheckComponents(cs: seq<Component>, kinds: set<ComponentKind>): Option<Diagnostic> {
    if cs == [] then None
    else if !cs[0].Valid() then Some(InvalidComponentValue)
    else if cs[0].Kind() in kinds then Some(DuplicateComponent)
    else CheckComponents(cs[1..], kinds + {cs[0].Kind()})
  }

  function ComponentText(c: Component): nat { if c.Name? then |c.text| else 0 }

  function ComponentBytes(c: Component): nat {
    match c
    case Name(t) => 1 + 4 + |t|
    case LocalTransform(_) => 1 + 10 * 4
    case PrimitiveShape(_) => 1 + 1 + 3 * 4
    case SurfaceMaterial(_) => 1 + 6 * 4
  }

  function OperationComponents(o: Operation): nat {
    match o case Create(_, cs) => |cs| case SetComponent(_, _) => 1 case _ => 0
  }

  function OperationText(o: Operation): nat {
    match o
    case Create(_, cs) => Sum(cs, ComponentText)
    case SetComponent(_, c) => ComponentText(c)
    case _ => 0
  }

  function OperationBytes(o: Operation): nat {
    match o
    case Create(_, cs) => 1 + 16 + 4 + Sum(cs, ComponentBytes)
    case Delete(_) => 1 + 16
    case SetComponent(_, c) => 1 + 16 + ComponentBytes(c)
    case RemoveComponent(_, _) => 1 + 16 + 1
    case Reparent(_, p) => 1 + 16 + 1 + (if p.Some? then 16 else 0)
  }

  datatype Diagnostic =
    | UnsupportedSchema | EmptyPatch | OperationLimitExceeded | ComponentLimitExceeded
    | TextLimitExceeded | DecodedSizeLimitExceeded | InvalidComponentValue | DuplicateComponent
    | SelfParent | EmptyImagination | ImaginationEntityLimitExceeded
    | ImaginationRelationLimitExceeded | ImaginationConstraintLimitExceeded
    | DuplicateImaginationEntity

  const SCHEMA_V1: nat := 1

  /** `conflict_policy` has the single value `RequireExactBase`. */
  datatype Patch = Patch(
    schemaVersion: nat, transactionId: nat, idempotencyKey: nat, baseRevision: nat,
    delivery: Delivery, declaredBudget: PatchBudget, operations: seq<Operation>)
  {
    function TextBytes(): nat { delivery.TextBytes() + Sum(operations, OperationText) }
    function LogicalBytes(): nat {
      2 + 16 + 16 + 8 + 1 + delivery.LogicalBytes() + 24 + 4 + Sum(operations, OperationBytes)
    }
    function Components(): nat { Sum(operations, OperationComponents) }
  }

  /** `ScenePatch::validate`. Saturating folds are written as saturated exact sums. */
  function ValidatePatch(p: Patch, limits: RuntimeLimits): Option<Diagnostic> {
    var b := p.declaredBudget;
    var count := Sat32(|p.operations|);
    if p.schemaVersion != SCHEMA_V1 then Some(UnsupportedSchema)
    else if count == 0 then Some(EmptyPatch)
    else if count > b.maxOperations || count > limits.maxOperations || b.maxOperations > limits.maxOperations then
      Some(OperationLimitExceeded)
    else
      var bad := FirstBadOperation(p.operations, limits);
      if bad.Some? then bad
      else if Sat64(p.Components()) > b.maxComponents || Sat64(p.Components()) > limits.maxComponents
           || b.maxComponents > limits.maxComponents then Some(ComponentLimitExceeded)
      else if Sat64(p.TextBytes()) > b.maxTextBytes || Sat64(p.TextBytes()) > limits.maxTextBytes
           || b.maxTextBytes > limits.maxTextBytes then Some(TextLimitExceeded)
      else if Sat64(p.LogicalBytes()) > b.maxDecodedBytes || Sat64(p.LogicalBytes()) > limits.maxDecodedBytes
           || b.maxDecodedBytes > limits.maxDecodedBytes then Some(DecodedSizeLimitExceeded)
      else None
  }

  function FirstBadOperation(ops: seq<Operation>, limits: RuntimeLimits): Option<Diagnostic> {
    if ops == [] then None
    else if ops[0].Check().Some? then ops[0].Check()
    else if ops[0].Create? && Sat32(|ops[0].components|) > limits.maxComponentsPerEntity then
      Some(ComponentLimitExceeded)
    else FirstBadOperation(ops[1..], limits)
  }

  // ----- imaginations (imagination.rs) -----

  datatype ImaginedEntity = ImaginedEntity(
    key: Text, preferredId: Option<EntityId>, name: Option<Text>, primitive: Primitive,
    transform: Option<Transform>, material: Option<Material>)
  {
    /** The display name the compiler will emit. */
    function DisplayName(): Text { if name.Some? then name.value else key }
    predicate Valid() { transform.Some? ==> RotationNonZero(transform.value.rotation) }
  }

  datatype Relation =
    | Parent(child: Text, parent: Text)
    | Above(subject: Text, anchor: Text, clearance: F32)
    | RightOf(subject: Text, anchor: Text, gap: F32)
  {
    /** The entity that the relation assigns. */
    function Subject(): Text { if Parent? then child else subject }
    /** The entity it is assigned relative to. */
    function Target(): Text { if Parent? then parent else anchor }
  }

  function EntityText(e: ImaginedEntity): nat { |e.key| + if e.name.Some? then |e.name.value| else 0 }

  function EntityNameBytes(e: ImaginedEntity): nat { |e.DisplayName()| }

  function EntityBytes(e: ImaginedEntity): nat {
    16 + EntityText(e) + 1 + (if e.preferredId.Some? then 16 else 0) + 1 + 3 * 4
    + 1 + (if e.transform.Some? then 10 * 4 else 0) + 1 + (if e.material.Some? then 6 * 4 else 0)
  }

  /** Bytes of the create operation that an entity becomes. */
  function EntityCreateBytes(e: ImaginedEntity): nat {
    (1 + 16 + 4) + (1 + 4 + |e.DisplayName()|) + (1 + 10 * 4) + (1 + 1 + 3 * 4) + (1 + 6 * 4)
  }

  function RelationText(r: Relation): nat { |r.Subject()| + |r.Target()| }

  function RelationBytes(r: Relation): nat { 1 + 8 + RelationText(r) + if r.Parent? then 0 else 4 }

  function RelationReparents(r: Relation): nat { if r.Parent? then 1 else 0 }

  datatype Constraint = EntityExists(entityId: EntityId) | EntityAbsent(entityId: EntityId)

  datatype ImaginationBudget = ImaginationBudget(
    maxEntities: NonZero32, maxRelations: NonZero32, maxConstraints: NonZero32, patch: PatchBudget)

  datatype Imagination = Imagination(
    schemaVersion: nat, imaginationId: nat, transactionId: nat, idempotencyKey: nat, baseRevision: nat,
    delivery: Delivery, seed: nat, declaredBudget: ImaginationBudget,
    entities: seq<ImaginedEntity>, relations: seq<Relation>, constraints: seq<Constraint>)
  {
    function TextBytes(): nat {
      delivery.TextBytes() + Sum(entities, EntityText)
      + Sum(relations, RelationText)
    }
    function OutputTextBytes(): nat {
      delivery.TextBytes() + Sum(entities, EntityNameBytes)
    }
    function ParentCount(): nat { Sum(relations, RelationReparents) }
    /** `normalized_patch_size_bytes`, before saturation. */
    function NormalizedPatchBytes(): nat {
      (2 + 16 + 16 + 8 + 1 + 24 + 4) + delivery.LogicalBytes()
      + Sum(entities, EntityCreateBytes) + Sat32(ParentCount()) * (1 + 16 + 1 + 16)
    }
    function LogicalBytes(): nat {
      2 + 16 * 3 + 8 * 2 + delivery.LogicalBytes() + 40 + 4 * 3
      + Sum(entities, EntityBytes)
      + Sum(relations, RelationBytes) + Sat32(|constraints|) * 17
    }
    /** Every text of the request is one the source can hold. */
    predicate SceneTexts() {
      && (delivery.LatestWins? ==> SceneText(delivery.supersessionKey))
      && (forall e | e in entities :: SceneText(e.key) && SceneText(e.DisplayName()))
      && (forall r | r in relations :: SceneText(r.Subject()) && SceneText(r.Target()))
    }
    predicate DistinctKeys() {
      forall i, j | 0 <= i < j < |entities| :: entities[i].key != entities[j].key
    }
  }

  function CheckCollections(im: Imagination, limits: RuntimeLimits): Option<Diagnostic> {
    var b := im.declaredBudget;
    var e, r, c := Sat32(|im.entities|), Sat32(|im.relations|), Sat32(|im.constraints|);
    if e == 0 then Some(EmptyImagination)
    else if e > b.maxEntities || e > limits.maxImaginationEntities || b.maxEntities > limits.maxImaginationEntities
    then Some(ImaginationEntityLimitExceeded)
    else if r > b.maxRelations || r > limits.maxImaginationRelations || b.maxRelations > limits.maxImaginationRelations
    then Some(ImaginationRelationLimitExceeded)
    else if c > b.maxConstraints || c > limits.maxImaginationConstraints
         || b.maxConstraints > limits.maxImaginationConstraints
    then Some(ImaginationConstraintLimitExceeded)
    else None
  }

  function CheckPatchBudget(b: PatchBudget, limits: RuntimeLimits): Option<Diagnostic> {
    if b.maxOperations > limits.maxOperations then Some(OperationLimitExceeded)
    else if b.maxComponents > limits.maxComponents then Some(ComponentLimitExceeded)
    else if b.maxTextBytes > limits.maxTextBytes then Some(TextLimitExceeded)
    else if b.maxDecodedBytes > limits.maxDecodedBytes then Some(DecodedSizeLimitExceeded)
    else None
  }

  function FirstBadEntity(es: seq<ImaginedEntity>, seen: set<Text>): Option<Diagnostic> {
    if es == [] then None
    else if es[0].key in seen then Some(DuplicateImaginationEntity)
    else if !es[0].Valid() then Some(InvalidComponentValue)
    else FirstBadEntity(es[1..], seen + {es[0].key})
  }

  function CheckEntitiesAndOutput(im: Imagination, limits: RuntimeLimits): Option<Diagnostic> {
    var b := im.declaredBudget.patch;
    var e := Sat32(|im.entities|);
    var operations := Sat32(e + Sat32(im.ParentCount()));
    var components := Sat32(e * 4);
    var bad := FirstBadEntity(im.entities, {});
    if bad.Some? then bad
    else if Sat64(im.TextBytes()) > limits.maxTextBytes then Some(TextLimitExceeded)
    else if Sat64(im.OutputTextBytes()) > b.maxTextBytes then Some(TextLimitExceeded)
    else if operations > b.maxOperations || operations > limits.maxOperations then Some(OperationLimitExceeded)
    else if limits.maxComponentsPerEntity < 4 || components > b.maxComponents || components > limits.maxComponents
    then Some(ComponentLimitExceeded)
    else if Sat64(im.NormalizedPatchBytes()) > b.maxDecodedBytes then Some(DecodedSizeLimitExceeded)
    else None
  }

  /** `ImaginationEnvelope::validate`. */
  function ValidateImagination(im: Imagination, limits: RuntimeLimits): Option<Diagnostic> {
    if im.schemaVersion != SCHEMA_V1 then Some(UnsupportedSchema)
    else if CheckCollections(im, limits).Some? then CheckCollections(im, limits)
    else if CheckPatchBudget(im.declaredBudget.patch, limits).Some? then
      CheckPatchBudget(im.declaredBudget.patch, limits)
    else if CheckEntitiesAndOutput(im, limits).Some? then CheckEntitiesAndOutput(im, limits)
    else if Sat64(im.LogicalBytes()) > limits.maxDecodedBytes then Some(DecodedSizeLimitExceeded)
    else None
  }

  /** The scan finds nothing exactly when keys are new and distinct and every entity is valid. */
  lemma {:induction false} NoBadEntity(es: seq<ImaginedEntity>, seen: set<Text>)
    ensures FirstBadEntity(es, seen).None? <==>
      && (forall i, j | 0 <= i < j < |es| :: es[i].key != es[j].key)
      && (forall e | e in es :: e.Valid() && e.key !in seen)
  {
    if es != [] {
      var rest := es[1..];
      NoBadEntity(rest, seen + {es[0].key});
      assert es == [es[0]] + rest;
      if FirstBadEntity(es, seen).None? {
        forall i, j | 0 <= i < j < |es| ensures es[i].key != es[j].key {
          assert es[j] in rest;
          if i > 0 { assert es[i] == rest[i - 1] && es[j] == rest[j - 1]; }
        }
      } else {
        TailEntities(es, seen);
      }
    }
  }

  lemma TailEntities(es: seq<ImaginedEntity>, seen: set<Text>)
    requires es != []
    ensures
      ((forall i, j | 0 <= i < j < |es| :: es[i].key != es[j].key)
       && (forall e | e in es :: e.Valid() && e.key !in seen)) ==>
      && (forall i, j | 0 <= i < j < |es[1..]| :: es[1..][i].key != es[1..][j].key)
      && (forall e | e in es[1..] :: e.Valid() && e.key !in seen + {es[0].key})
      && es[0].Valid() && es[0].key !in seen
  {
    assert es[0] in es;
    forall e | e in es[1..] ensures e in es && exists i :: 0 < i < |es| && es[i] == e {
      var i :| 0 <= i < |es[1..]| && es[1..][i] == e;
      assert es[i + 1] == e;
    }
  }

  /** The scan finds nothing exactly when every operation is valid and no create has too many components. */
  lemma {:induction false} NoBadOperation(ops: seq<Operation>, limits: RuntimeLimits)
    ensures FirstBadOperation(ops, limits).None? <==>
      forall o | o in ops ::
        o.Check().None? && (o.Create? ==> Sat32(|o.components|) <= limits.maxComponentsPerEntity)
  {
    if ops != [] {
      NoBadOperation(ops[1..], limits);
      assert ops == [ops[0]] + ops[1..];
    }
  }

  /** At most what was declared, and no more declared than allowed. */
  predicate Budgeted(actual: nat, declared: nat, allowed: nat) { actual <= declared <= allowed }

  /** A patch is admitted exactly when every operation is valid and each of its four totals is budgeted. */
  lemma {:induction false} PatchAdmits(p: Patch, limits: RuntimeLimits)
    ensures var b := p.declaredBudget;
      ValidatePatch(p, limits).None? <==>
      && p.schemaVersion == SCHEMA_V1 && p.operations != []
      && (forall o | o in p.operations ::
            o.Check().None? && (o.Create? ==> Sat32(|o.components|) <= limits.maxComponentsPerEntity))
      && Budgeted(Sat32(|p.operations|), b.maxOperations, limits.maxOperations)
      && Budgeted(Sat64(p.Components()), b.maxComponents, limits.maxComponents)
      && Budgeted(Sat64(p.TextBytes()), b.maxTextBytes, limits.maxTextBytes)
      && Budgeted(Sat64(p.LogicalBytes()), b.maxDecodedBytes, limits.maxDecodedBytes)
  {
    NoBadOperation(p.operations, limits);
  }

  /**
   * An imagination is admitted exactly when its keys are distinct, its entities valid, each of its counts budgeted,
   * its own text and size within the limits, and every total of the patch it will become budgeted.
   */
  lemma {:induction false} ImaginationAdmits(im: Imagination, limits: RuntimeLimits)
    ensures var b, e := im.declaredBudget, Sat32(|im.entities|);
      ValidateImagination(im, limits).None? <==>
      && im.schemaVersion == SCHEMA_V1 && im.entities != []
      && im.DistinctKeys() && (forall x | x in im.entities :: x.Valid())
      && Budgeted(e, b.maxEntities, limits.maxImaginationEntities)
      && Budgeted(Sat32(|im.relations|), b.maxRelations, limits.maxImaginationRelations)
      && Budgeted(Sat32(|im.constraints|), b.maxConstraints, limits.maxImaginationConstraints)
      && Sat64(im.TextBytes()) <= limits.maxTextBytes && Sat64(im.LogicalBytes()) <= limits.maxDecodedBytes
      && Budgeted(Sat32(e + Sat32(im.ParentCount())), b.patch.maxOperations, limits.maxOperations)
      && 4 <= limits.maxComponentsPerEntity
      && Budgeted(Sat32(e * 4), b.patch.maxComponents, limits.maxComponents)
      && Budgeted(Sat64(im.OutputTextBytes()), b.patch.maxTextBytes, limits.maxTextBytes)
      && Budgeted(Sat64(im.NormalizedPatchBytes()), b.patch.maxDecodedBytes, limits.maxDecodedBytes)
  {
    NoBadEntity(im.entities, {});
  }
}
