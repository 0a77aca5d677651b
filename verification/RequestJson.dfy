/** The canonical JSON of imaginations and what it takes (imagination.rs). */
module RequestJson {
  import opened Machine
  import opened Protocol
  import opened JsonText
  import opened ReportJson

  // ----- entities -----

  function OptionalTransformJson(show: Show, t: Option<Transform>): (r: J.Value)
    ensures |J.Write(r)| == if t.Some? then TransformSize(show, t.value) else 4
  {
    if t.Some? then TransformJson(show, t.value) else Null()
  }

  function OptionalMaterialJson(show: Show, m: Option<Material>): (r: J.Value)
    ensures |J.Write(r)| == if m.Some? then MaterialSize(show, m.value) else 4
  {
    if m.Some? then MaterialJson(show, m.value) else Null()
  }

  function EntityObject(e: ImaginedEntity, primitive: J.Value, transform: J.Value, material: J.Value): (r: J.Value)
    ensures |J.Write(r)| == 72 + EscapedBytes(e.key) + (if e.preferredId.Some? then 34 else 4)
      + (if e.name.Some? then EscapedBytes(e.name.value) + 2 else 4)
      + |J.Write(primitive)| + |J.Write(transform)| + |J.Write(material)|
  {
    Struct(Field("key", Quoted(e.key), Field("preferred_id", OptionalIdentity(e.preferredId),
      Field("name", OptionalText(e.name), Field("primitive", primitive,
      Field("transform", transform, Field("material", material, J.NoMembers)))))))
  }

  function EntitySize(show: Show, e: ImaginedEntity): nat {
    72 + EscapedBytes(e.key) + (if e.preferredId.Some? then 34 else 4)
    + (if e.name.Some? then EscapedBytes(e.name.value) + 2 else 4) + PrimitiveSize(show, e.primitive)
    + (if e.transform.Some? then TransformSize(show, e.transform.value) else 4)
    + if e.material.Some? then MaterialSize(show, e.material.value) else 4
  }

  function EntityJson(show: Show, e: ImaginedEntity): (r: J.Value)
    ensures |J.Write(r)| == EntitySize(show, e)
  {
    EntityObject(e, PrimitiveJson(show, e.primitive), OptionalTransformJson(show, e.transform),
      OptionalMaterialJson(show, e.material))
  }

  function EntityWriter(show: Show): ImaginedEntity -> J.Value { e => EntityJson(show, e) }

  function EntitySlot(show: Show): ImaginedEntity -> nat { e => EntitySize(show, e) + 1 }

  function EntitiesJson(show: Show, es: seq<ImaginedEntity>): (r: J.Value)
    ensures |J.Write(r)| == ListSize(Sum(es, EntitySlot(show)))
  {
    ListTakes(es, EntityWriter(show), EntitySlot(show));
    List(es, EntityWriter(show))
  }

  // ----- relations and constraints -----

  function RelationName(r: Relation): string {
    match r case Parent(_, _) => "parent" case Above(_, _, _) => "above" case RightOf(_, _, _) => "right_of"
  }

  function RelationContentSize(show: Show, r: Relation): nat {
    match r
    case Parent(child, parent) => 24 + EscapedBytes(child) + EscapedBytes(parent)
    case Above(subject, anchor, clearance) =>
      39 + EscapedBytes(subject) + EscapedBytes(anchor) + |show(clearance)|
    case RightOf(subject, anchor, gap) => 33 + EscapedBytes(subject) + EscapedBytes(anchor) + |show(gap)|
  }

  function RelationContentJson(show: Show, r: Relation): (v: J.Value)
    ensures |J.Write(v)| == RelationContentSize(show, r)
  {
    match r
    case Parent(child, parent) => Struct(Field("child", Quoted(child), Field("parent", Quoted(parent), J.NoMembers)))
    case Above(subject, anchor, clearance) =>
      Struct(Field("subject", Quoted(subject), Field("anchor", Quoted(anchor),
        Field("clearance", Float(show, clearance), J.NoMembers))))
    case RightOf(subject, anchor, gap) =>
      Struct(Field("subject", Quoted(subject), Field("anchor", Quoted(anchor),
        Field("gap", Float(show, gap), J.NoMembers))))
  }

  function RelationSize(show: Show, r: Relation): nat { 24 + |RelationName(r)| + RelationContentSize(show, r) }

  function RelationJson(show: Show, r: Relation): (v: J.Value)
    ensures |J.Write(v)| == RelationSize(show, r)
  {
    Tagged("relation", RelationName(r), RelationContentJson(show, r))
  }

  function RelationWriter(show: Show): Relation -> J.Value { r => RelationJson(show, r) }

  function RelationSlot(show: Show): Relation -> nat { r => RelationSize(show, r) + 1 }

  function RelationsJson(show: Show, rs: seq<Relation>): (v: J.Value)
    ensures |J.Write(v)| == ListSize(Sum(rs, RelationSlot(show)))
  {
    ListTakes(rs, RelationWriter(show), RelationSlot(show));
    List(rs, RelationWriter(show))
  }

  function ConstraintJson(c: Constraint): (v: J.Value)
    ensures |J.Write(v)| == 87
  {
    Tagged("constraint", if c.EntityExists? then "entity_exists" else "entity_absent",
      Struct(Field("entity_id", Identity(c.entityId), J.NoMembers)))
  }

  function ConstraintSlot(c: Constraint): nat { 88 }

  function ConstraintsJson(cs: seq<Constraint>): (v: J.Value)
    ensures |J.Write(v)| == ListSize(Sum(cs, ConstraintSlot))
  {
    ListTakes(cs, ConstraintJson, ConstraintSlot);
    List(cs, ConstraintJson)
  }

  // ----- the envelope -----

  function CompilationBudgetJson(b: ImaginationBudget): (r: J.Value)
    ensures |J.Write(r)| ==
      62 + |Decimal(b.maxEntities)| + |Decimal(b.maxRelations)| + |Decimal(b.maxConstraints)| + BudgetSize(b.patch)
  {
    Struct(Field("max_entities", Number(b.maxEntities), Field("max_relations", Number(b.maxRelations),
      Field("max_constraints", Number(b.maxConstraints), Field("patch", BudgetJson(b.patch), J.NoMembers)))))
  }

  /** The envelope from its seed on. */
  function ContentsOf(seed: nat, budget: J.Value, entities: J.Value, relations: J.Value, constraints: J.Value)
    : (m: J.Members)
    ensures m.Member?
    ensures |J.WriteMembers(m)| == 66 + |Decimal(seed)| + |J.Write(budget)| + |J.Write(entities)|
      + |J.Write(relations)| + |J.Write(constraints)|
  {
    Field("seed", Number(seed), Field("declared_budget", budget, Field("entities", entities,
      Field("relations", relations, Field("constraints", constraints, J.NoMembers)))))
  }

  function Envelope(im: Imagination, delivery: J.Value, contents: J.Members): (r: J.Value)
    requires contents.Member?
    ensures |J.Write(r)| == 206 + |Decimal(im.schemaVersion)| + |Decimal(im.baseRevision)| + |J.Write(delivery)|
      + |J.WriteMembers(contents)|
  {
    Struct(Field("schema_version", Number(im.schemaVersion), Field("imagination_id", Identity(im.imaginationId),
      Field("transaction_id", Identity(im.transactionId), Field("idempotency_key", Identity(im.idempotencyKey),
      Field("base_revision", Number(im.baseRevision), Field("delivery", delivery, contents)))))))
  }

  function RequestJson(show: Show, im: Imagination): J.Value {
    Envelope(im, DeliveryJson(im.delivery),
      ContentsOf(im.seed, CompilationBudgetJson(im.declaredBudget), EntitiesJson(show, im.entities),
        RelationsJson(show, im.relations), ConstraintsJson(im.constraints)))
  }

  /** The exact number of bytes of a request, without its line feed. */
  function RequestSize(show: Show, im: Imagination): nat {
    334 + |Decimal(im.schemaVersion)| + |Decimal(im.baseRevision)| + DeliverySize(im.delivery) + |Decimal(im.seed)|
    + |Decimal(im.declaredBudget.maxEntities)| + |Decimal(im.declaredBudget.maxRelations)|
    + |Decimal(im.declaredBudget.maxConstraints)| + BudgetSize(im.declaredBudget.patch)
    + ListSize(Sum(im.entities, EntitySlot(show))) + ListSize(Sum(im.relations, RelationSlot(show)))
    + ListSize(Sum(im.constraints, ConstraintSlot))
  }

  lemma {:induction false} RequestWritten(show: Show, im: Imagination)
    ensures |J.Write(RequestJson(show, im))| == RequestSize(show, im)
  {
  }
}
