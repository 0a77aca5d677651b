/**
 * The canonical JSON of compilation results and the exact size of each part (result.rs, message.rs, component.rs).
 * Every writer comes with a function for what it writes takes.
 */
module ReportJson {
  import opened Machine
  import opened Protocol
  import opened CompilationReport
  import opened Planning
  import opened JsonText
  import J = NestingScanner

  const DEFAULT_FLOATS: set<F32> := {F32_ZERO, F32_ONE, NEUTRAL_MATERIAL.r, NEUTRAL_MATERIAL.roughness}

  /** Three to 24 bytes of a JSON number; the values the compiler fills in (0.0, 0.7, 0.8, 1.0) take three. */
  ghost predicate Shows(show: F32 -> seq<Byte>) {
    && (forall x: F32 :: 3 <= |show(x)| <= 24 && forall b | b in show(x) :: J.WordByte(b))
    && (forall x | x in DEFAULT_FLOATS :: |show(x)| == 3)
  }

  /** How the serializer writes a finite single. */
  type Show = show: F32 -> seq<Byte> | Shows(show) witness (x: F32) => [48, 46, 48]

  function Float(show: Show, x: F32): (v: J.Value)
    ensures J.WellFormed(v) && J.Depth(v) == 0 && |J.Write(v)| == |show(x)|
  {
    J.Word(show(x))
  }

  // ----- components -----

  function Vec3Size(show: Show, v: Vec3): nat { 16 + |show(v.x)| + |show(v.y)| + |show(v.z)| }

  function Vec3Json(show: Show, v: Vec3): (r: J.Value)
    ensures J.WellFormed(r) && J.Depth(r) == 1 && |J.Write(r)| == Vec3Size(show, v)
  {
    Struct(Field("x", Float(show, v.x), Field("y", Float(show, v.y), Field("z", Float(show, v.z), J.NoMembers))))
  }

  function QuaternionSize(show: Show, q: Quaternion): nat {
    21 + |show(q.x)| + |show(q.y)| + |show(q.z)| + |show(q.w)|
  }

  function QuaternionJson(show: Show, q: Quaternion): (r: J.Value)
    ensures J.WellFormed(r) && J.Depth(r) == 1 && |J.Write(r)| == QuaternionSize(show, q)
  {
    Struct(Field("x", Float(show, q.x), Field("y", Float(show, q.y), Field("z", Float(show, q.z),
      Field("w", Float(show, q.w), J.NoMembers)))))
  }

  function TransformSize(show: Show, t: Transform): nat {
    37 + Vec3Size(show, t.translation) + QuaternionSize(show, t.rotation) + Vec3Size(show, t.scale)
  }

  function TransformJson(show: Show, t: Transform): (r: J.Value)
    ensures J.WellFormed(r) && J.Depth(r) == 2 && |J.Write(r)| == TransformSize(show, t)
  {
    Struct(Field("translation", Vec3Json(show, t.translation), Field("rotation", QuaternionJson(show, t.rotation),
      Field("scale", Vec3Json(show, t.scale), J.NoMembers))))
  }

  function ShapeName(s: Shape): string {
    match s case Cuboid => "cuboid" case Plane => "plane" case Sphere => "sphere"
  }

  function PrimitiveSize(show: Show, p: Primitive): nat {
    26 + |ShapeName(p.shape)| + Vec3Size(show, p.dimensions)
  }

  function PrimitiveJson(show: Show, p: Primitive): (r: J.Value)
    ensures J.WellFormed(r) && J.Depth(r) == 2 && |J.Write(r)| == PrimitiveSize(show, p)
  {
    Struct(Field("shape", Label(ShapeName(p.shape)), Field("dimensions", Vec3Json(show, p.dimensions), J.NoMembers)))
  }

  function ColorSize(show: Show, m: Material): nat { 21 + |show(m.r)| + |show(m.g)| + |show(m.b)| + |show(m.a)| }

  function ColorJson(show: Show, m: Material): (r: J.Value)
    ensures J.WellFormed(r) && J.Depth(r) == 1 && |J.Write(r)| == ColorSize(show, m)
  {
    Struct(Field("r", Float(show, m.r), Field("g", Float(show, m.g), Field("b", Float(show, m.b),
      Field("a", Float(show, m.a), J.NoMembers)))))
  }

  function MaterialSize(show: Show, m: Material): nat {
    40 + ColorSize(show, m) + |show(m.metallic)| + |show(m.roughness)|
  }

  function MaterialJson(show: Show, m: Material): (r: J.Value)
    ensures J.WellFormed(r) && J.Depth(r) == 2 && |J.Write(r)| == MaterialSize(show, m)
  {
    Struct(Field("base_color", ColorJson(show, m), Field("metallic", Float(show, m.metallic),
      Field("roughness", Float(show, m.roughness), J.NoMembers))))
  }

  function KindName(k: ComponentKind): string {
    match k
    case NameKind => "name"
    case TransformKind => "local_transform"
    case PrimitiveKind => "primitive"
    case MaterialKind => "material"
  }

  function ContentSize(show: Show, c: Component): nat {
    match c
    case Name(t) => 12 + EscapedBytes(t)
    case LocalTransform(t) => TransformSize(show, t)
    case PrimitiveShape(p) => PrimitiveSize(show, p)
    case SurfaceMaterial(m) => MaterialSize(show, m)
  }

  function NameJson(t: Text): (r: J.Value)
    ensures J.WellFormed(r) && J.Depth(r) == 1 && |J.Write(r)| == 12 + EscapedBytes(t)
  {
    Struct(Field("value", Quoted(t), J.NoMembers))
  }

  function ContentJson(show: Show, c: Component): (r: J.Value)
    ensures J.WellFormed(r) && J.Depth(r) <= 2 && |J.Write(r)| == ContentSize(show, c)
  {
    match c
    case Name(t) => NameJson(t)
    case LocalTransform(t) => TransformJson(show, t)
    case PrimitiveShape(p) => PrimitiveJson(show, p)
    case SurfaceMaterial(m) => MaterialJson(show, m)
  }

  /** The object of an adjacently tagged variant. */
  function Tagged(tag: string, name: string, content: J.Value): (r: J.Value)
    ensures J.WellFormed(r) <==> J.WellFormed(content)
    ensures J.Depth(r) == 1 + J.Depth(content) && |J.Write(r)| == 16 + |tag| + |name| + |J.Write(content)|
  {
    Struct(Field(tag, Label(name), Field("value", content, J.NoMembers)))
  }

  function ComponentSize(show: Show, c: Component): nat { 25 + |KindName(c.Kind())| + ContentSize(show, c) }

  function ComponentJson(show: Show, c: Component): (r: J.Value)
    ensures J.WellFormed(r) && J.Depth(r) <= 3 && |J.Write(r)| == ComponentSize(show, c)
  {
    Tagged("component", KindName(c.Kind()), ContentJson(show, c))
  }

  function ComponentWriter(show: Show): Component -> J.Value { c => ComponentJson(show, c) }

  function ComponentSlot(show: Show): Component -> nat { c => ComponentSize(show, c) + 1 }

  function ComponentsJson(show: Show, cs: seq<Component>): (r: J.Value)
    ensures J.WellFormed(r) && J.Depth(r) <= 4 && |J.Write(r)| == ListSize(Sum(cs, ComponentSlot(show)))
  {
    ListNests(cs, ComponentWriter(show), 3);
    ListTakes(cs, ComponentWriter(show), ComponentSlot(show));
    List(cs, ComponentWriter(show))
  }

  // ----- patches -----

  function OperationName(o: Operation): string {
    match o
    case Create(_, _) => "create"
    case Delete(_) => "delete"
    case SetComponent(_, _) => "set_component"
    case RemoveComponent(_, _) => "remove_component"
    case Reparent(_, _) => "reparent"
  }

  /** An object that begins with an entity identity. */
  function AboutEntity(id: EntityId, name: string, content: J.Value): (r: J.Value)
    ensures J.WellFormed(r) <==> J.WellFormed(content)
    ensures J.Depth(r) == 1 + J.Depth(content) && |J.Write(r)| == 52 + |name| + |J.Write(content)|
  {
    Struct(Field("entity_id", Identity(id), Field(name, content, J.NoMembers)))
  }

  function PayloadSize(show: Show, o: Operation): nat {
    match o
    case Create(_, cs) => 62 + ListSize(Sum(cs, ComponentSlot(show)))
    case Delete(_) => 48
    case SetComponent(_, c) => 61 + ComponentSize(show, c)
    case RemoveComponent(_, k) => 63 + |KindName(k)|
    case Reparent(_, p) => 61 + if p.Some? then 34 else 4
  }

  function PayloadJson(show: Show, o: Operation): (r: J.Value)
    ensures J.WellFormed(r) && J.Depth(r) <= 5 && |J.Write(r)| == PayloadSize(show, o)
  {
    match o
    case Create(id, cs) => AboutEntity(id, "components", ComponentsJson(show, cs))
    case Delete(id) => Struct(Field("entity_id", Identity(id), J.NoMembers))
    case SetComponent(id, c) => AboutEntity(id, "component", ComponentJson(show, c))
    case RemoveComponent(id, k) => AboutEntity(id, "component", Label(KindName(k)))
    case Reparent(id, p) => AboutEntity(id, "parent_id", OptionalIdentity(p))
  }

  function OperationSize(show: Show, o: Operation): nat { 25 + |OperationName(o)| + PayloadSize(show, o) }

  function OperationJson(show: Show, o: Operation): (r: J.Value)
    ensures J.WellFormed(r) && J.Depth(r) <= 6 && |J.Write(r)| == OperationSize(show, o)
  {
    Tagged("operation", OperationName(o), PayloadJson(show, o))
  }

  function OperationWriter(show: Show): Operation -> J.Value { o => OperationJson(show, o) }

  function OperationSlot(show: Show): Operation -> nat { o => OperationSize(show, o) + 1 }

  function OperationsJson(show: Show, os: seq<Operation>): (r: J.Value)
    ensures J.WellFormed(r) && J.Depth(r) <= 7 && |J.Write(r)| == ListSize(Sum(os, OperationSlot(show)))
  {
    ListNests(os, OperationWriter(show), 6);
    ListTakes(os, OperationWriter(show), OperationSlot(show));
    List(os, OperationWriter(show))
  }

  function DeliverySize(d: Delivery): nat {
    match d case MustApply => 21 case LatestWins(key) => 44 + EscapedBytes(key) case BestEffort => 22
  }

  /** The object of an internally tagged variant. */
  function Mode(name: string, rest: J.Members): (r: J.Value)
    ensures J.WellFormed(r) <==> J.MembersOk(rest)
    ensures J.Depth(r) == 1 + J.MembersDepth(rest)
    ensures |J.Write(r)| == 11 + |name| + if rest.NoMembers? then 0 else 1 + |J.WriteMembers(rest)|
  {
    Struct(Field("mode", Label(name), rest))
  }

  function DeliveryJson(d: Delivery): (r: J.Value)
    ensures J.WellFormed(r) && J.Depth(r) == 1 && |J.Write(r)| == DeliverySize(d)
  {
    match d
    case MustApply => Mode("must_apply", J.NoMembers)
    case LatestWins(key) => Mode("latest_wins", Field("supersession_key", Quoted(key), J.NoMembers))
    case BestEffort => Mode("best_effort", J.NoMembers)
  }

  function BudgetSize(b: PatchBudget): nat {
    76 + |Decimal(b.maxOperations)| + |Decimal(b.maxComponents)| + |Decimal(b.maxTextBytes)|
    + |Decimal(b.maxDecodedBytes)|
  }

  function BudgetJson(b: PatchBudget): (r: J.Value)
    ensures J.WellFormed(r) && J.Depth(r) == 1 && |J.Write(r)| == BudgetSize(b)
  {
    Struct(Field("max_operations", Number(b.maxOperations), Field("max_components", Number(b.maxComponents),
      Field("max_text_bytes", Number(b.maxTextBytes), Field("max_decoded_bytes", Number(b.maxDecodedBytes),
        J.NoMembers)))))
  }

  function PatchSize(show: Show, p: Patch): nat {
    225 + |Decimal(p.schemaVersion)| + |Decimal(p.baseRevision)| + DeliverySize(p.delivery)
    + BudgetSize(p.declaredBudget) + ListSize(Sum(p.operations, OperationSlot(show)))
  }

  function PatchObject(p: Patch, delivery: J.Value, budget: J.Value, operations: J.Value): (r: J.Value)
    ensures J.WellFormed(r) <==> J.WellFormed(delivery) && J.WellFormed(budget) && J.WellFormed(operations)
    ensures J.Depth(r) == 1 + Max(J.Depth(delivery), Max(J.Depth(budget), J.Depth(operations)))
    ensures |J.Write(r)| == 225 + |Decimal(p.schemaVersion)| + |Decimal(p.baseRevision)|
      + |J.Write(delivery)| + |J.Write(budget)| + |J.Write(operations)|
  {
    Struct(Field("schema_version", Number(p.schemaVersion), Field("transaction_id", Identity(p.transactionId),
      Field("idempotency_key", Identity(p.idempotencyKey), Field("base_revision", Number(p.baseRevision),
      Field("conflict_policy", Label("require_exact_base"), Field("delivery", delivery,
      Field("declared_budget", budget, Field("operations", operations, J.NoMembers)))))))))
  }

  lemma PatchNests(p: Patch, delivery: J.Value, budget: J.Value, operations: J.Value)
    requires J.WellFormed(delivery) && J.WellFormed(budget) && J.WellFormed(operations)
    requires J.Depth(delivery) == 1 && J.Depth(budget) == 1 && J.Depth(operations) <= 7
    ensures var v := PatchObject(p, delivery, budget, operations); J.WellFormed(v) && J.Depth(v) <= 8
  {
  }

  function PatchJson(show: Show, p: Patch): (r: J.Value)
    ensures J.WellFormed(r) && J.Depth(r) <= 8 && |J.Write(r)| == PatchSize(show, p)
  {
    PatchNests(p, DeliveryJson(p.delivery), BudgetJson(p.declaredBudget), OperationsJson(show, p.operations));
    PatchObject(p, DeliveryJson(p.delivery), BudgetJson(p.declaredBudget), OperationsJson(show, p.operations))
  }

  // ----- decisions and unresolved entries -----

  function DecisionName(c: DecisionCode): string {
    match c
    case GeneratedEntityId => "generated_entity_id"
    case PreferredEntityIdSubstituted => "preferred_entity_id_substituted"
    case DefaultName => "default_name"
    case DefaultTransform => "default_transform"
    case DefaultMaterial => "default_material"
    case ParentRelationApplied => "parent_relation_applied"
    case AboveRelationApplied => "above_relation_applied"
    case RightOfRelationApplied => "right_of_relation_applied"
  }

  function DecisionSize(d: Decision): nat {
    58 + |DecisionName(d.code)| + EscapedBytes(d.entityKey)
    + (if d.relationIndex.Some? then |Decimal(d.relationIndex.value)| else 4) + if d.entityId.Some? then 34 else 4
  }

  function DecisionJson(d: Decision): (r: J.Value)
    ensures J.WellFormed(r) && J.Depth(r) == 1 && |J.Write(r)| == DecisionSize(d)
  {
    Struct(Field("code", Label(DecisionName(d.code)), Field("entity_key", Quoted(d.entityKey),
      Field("relation_index", OptionalNumber(d.relationIndex),
      Field("entity_id", OptionalIdentity(d.entityId), J.NoMembers)))))
  }

  function DecisionSlot(d: Decision): nat { DecisionSize(d) + 1 }

  function DecisionsJson(ds: seq<Decision>): (r: J.Value)
    ensures J.WellFormed(r) && J.Depth(r) <= 2 && |J.Write(r)| == ListSize(Sum(ds, DecisionSlot))
  {
    ListNests(ds, DecisionJson, 1);
    ListTakes(ds, DecisionJson, DecisionSlot);
    List(ds, DecisionJson)
  }

  function UnresolvedName(c: UnresolvedCode): string {
    match c
    case UnknownEntityReference => "unknown_entity_reference"
    case SelfRelation => "self_relation"
    case ConflictingRelation => "conflicting_relation"
    case HierarchyCycle => "hierarchy_cycle"
    case PlacementCycle => "placement_cycle"
    case RequiredEntityMissing => "required_entity_missing"
    case RequiredEntityPresent => "required_entity_present"
    case NonFinitePlacement => "non_finite_placement"
    case UnsupportedSpatialRotation => "unsupported_spatial_rotation"
  }

  function UnresolvedSize(u: Unresolved): nat {
    91 + |UnresolvedName(u.code)| + (if u.relationIndex.Some? then |Decimal(u.relationIndex.value)| else 4)
    + (if u.constraintIndex.Some? then |Decimal(u.constraintIndex.value)| else 4)
    + (if u.entityKey.Some? then EscapedBytes(u.entityKey.value) + 2 else 4)
    + (if u.relatedKey.Some? then EscapedBytes(u.relatedKey.value) + 2 else 4)
    + if u.entityId.Some? then 34 else 4
  }

  function UnresolvedJson(u: Unresolved): (r: J.Value)
    ensures J.WellFormed(r) && J.Depth(r) == 1 && |J.Write(r)| == UnresolvedSize(u)
  {
    Struct(Field("code", Label(UnresolvedName(u.code)), Field("relation_index", OptionalNumber(u.relationIndex),
      Field("constraint_index", OptionalNumber(u.constraintIndex), Field("entity_key", OptionalText(u.entityKey),
      Field("related_key", OptionalText(u.relatedKey),
      Field("entity_id", OptionalIdentity(u.entityId), J.NoMembers)))))))
  }

  function UnresolvedSlot(u: Unresolved): nat { UnresolvedSize(u) + 1 }

  function UnresolvedsJson(us: seq<Unresolved>): (r: J.Value)
    ensures J.WellFormed(r) && J.Depth(r) <= 2 && |J.Write(r)| == ListSize(Sum(us, UnresolvedSlot))
  {
    ListNests(us, UnresolvedJson, 1);
    ListTakes(us, UnresolvedJson, UnresolvedSlot);
    List(us, UnresolvedJson)
  }

  // ----- reports -----

  function OptionalPatchSize(show: Show, p: Option<Patch>): nat { if p.Some? then PatchSize(show, p.value) else 4 }

  function OptionalPatchJson(show: Show, p: Option<Patch>): (r: J.Value)
    ensures J.WellFormed(r) && J.Depth(r) <= 8 && |J.Write(r)| == OptionalPatchSize(show, p)
  {
    if p.Some? then PatchJson(show, p.value) else Null()
  }

  function ResultObject(r: CompilationResult, patch: J.Value, decisions: J.Value, unresolved: J.Value): (v: J.Value)
    ensures J.WellFormed(v) <==> J.WellFormed(patch) && J.WellFormed(decisions) && J.WellFormed(unresolved)
    ensures J.Depth(v) == 1 + Max(J.Depth(patch), Max(J.Depth(decisions), J.Depth(unresolved)))
    ensures |J.Write(v)| == 125 + |Decimal(r.schemaVersion)| + |Decimal(r.sceneRevision)|
      + |J.Write(patch)| + |J.Write(decisions)| + |J.Write(unresolved)|
  {
    Struct(Field("schema_version", Number(r.schemaVersion), Field("imagination_id", Identity(r.imaginationId),
      Field("scene_revision", Number(r.sceneRevision), Field("patch", patch,
      Field("decisions", decisions, Field("unresolved", unresolved, J.NoMembers)))))))
  }

  function ResultJson(show: Show, r: CompilationResult): J.Value {
    ResultObject(r, OptionalPatchJson(show, r.patch), DecisionsJson(r.decisions), UnresolvedsJson(r.unresolved))
  }

  /** The exact number of bytes of a report, without its line feed. */
  function ReportSize(show: Show, r: CompilationResult): nat {
    125 + |Decimal(r.schemaVersion)| + |Decimal(r.sceneRevision)| + OptionalPatchSize(show, r.patch)
    + ListSize(Sum(r.decisions, DecisionSlot)) + ListSize(Sum(r.unresolved, UnresolvedSlot))
  }

  lemma EntriesNest(r: CompilationResult, patch: J.Value, decisions: J.Value, unresolved: J.Value)
    requires J.WellFormed(patch) && J.WellFormed(decisions) && J.WellFormed(unresolved)
    requires J.Depth(patch) <= 8 && J.Depth(decisions) <= 2 && J.Depth(unresolved) <= 2
    ensures var v := ResultObject(r, patch, decisions, unresolved); J.WellFormed(v) && J.Depth(v) <= 9
  {
  }

  /** No report is nested more than nine deep. */
  lemma {:induction false} ResultNests(show: Show, r: CompilationResult)
    ensures J.WellFormed(ResultJson(show, r)) && J.Depth(ResultJson(show, r)) <= COMPILATION_JSON_NESTING_DEPTH
  {
    EntriesNest(r, OptionalPatchJson(show, r.patch), DecisionsJson(r.decisions), UnresolvedsJson(r.unresolved));
  }

  lemma {:induction false} ResultTakes(show: Show, r: CompilationResult)
    ensures |J.Write(ResultJson(show, r))| == ReportSize(show, r)
  {
  }
}
