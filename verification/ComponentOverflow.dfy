/** A request that admission accepts and whose own compiled patch is then refused (imagination.rs, message.rs). */
module ComponentOverflow {
  import opened Machine
  import opened Ordering
  import opened Protocol
  import opened Planning
  import opened Relations
  import opened Acceptance
  import opened Diagnosis
  import opened Emission
  import opened CompiledPatch

  const WIDEST := RuntimeLimits(
    U64_MAX, U64_MAX, U16_MAX, U32_MAX, U32_MAX, U32_MAX, U64_MAX, U32_MAX, U32_MAX, U32_MAX, U32_MAX, U32_MAX,
    U32_MAX, U32_MAX, U32_MAX, U64_MAX)

  const ENTITIES: nat := 0x4000_0000

  /** An index as five base-64 digits, each a printable character. */
  function IndexKey(i: nat): (key: Text)
    requires i < ENTITIES
    ensures SceneText(key)
  {
    var key := [64 + i / 0x100_0000, 64 + i / 0x4_0000 % 64, 64 + i / 0x1000 % 64, 64 + i / 64 % 64, 64 + i % 64];
    AsciiIsUtf8(key);
    key
  }

  lemma IndexKeyInjective(i: nat, j: nat)
    requires i < ENTITIES && j < ENTITIES && IndexKey(i) == IndexKey(j)
    ensures i == j
  {
    assert IndexKey(i)[0] == IndexKey(j)[0] && IndexKey(i)[1] == IndexKey(j)[1] && IndexKey(i)[2] == IndexKey(j)[2];
    assert IndexKey(i)[3] == IndexKey(j)[3] && IndexKey(i)[4] == IndexKey(j)[4];
    assert i / 64 / 64 == i / 0x1000 && i / 64 / 64 / 64 == i / 0x4_0000 && i / 64 / 64 / 64 / 64 == i / 0x100_0000;
    assert j / 64 / 64 == j / 0x1000 && j / 64 / 64 / 64 == j / 0x4_0000 && j / 64 / 64 / 64 / 64 == j / 0x100_0000;
  }

  function Nth(i: nat): ImaginedEntity
    requires i < ENTITIES
  {
    ImaginedEntity(IndexKey(i), Some(i + 1), None, Primitive(Cuboid, Vec3(F32_ONE, F32_ONE, F32_ONE)), None, None)
  }

  function Request(): Imagination {
    Imagination(SCHEMA_V1, 1, 1, 1, 0, MustApply, 0,
      UNLIMITED,
      seq(ENTITIES, i requires 0 <= i < ENTITIES => Nth(i)), [], [])
  }

  lemma {:induction false} RequestDistinct()
    ensures Request().DistinctKeys()
  {
    var es := Request().entities;
    forall i, j | 0 <= i < j < |es| ensures es[i].key != es[j].key {
      if es[i].key == es[j].key { IndexKeyInjective(i, j); }
    }
  }

  const UNLIMITED := ImaginationBudget(U32_MAX, U32_MAX, U32_MAX, PatchBudget(U32_MAX, U32_MAX, U64_MAX, U64_MAX))

  /** Under the widest limits every estimate saturates below its bound. */
  lemma {:induction false} WidestAdmits(im: Imagination)
    requires im.schemaVersion == SCHEMA_V1 && im.declaredBudget == UNLIMITED && im.entities != []
    requires FirstBadEntity(im.entities, {}).None?
    ensures ValidateImagination(im, WIDEST).None?
  {
    assert CheckCollections(im, WIDEST).None?;
    assert CheckEntitiesAndOutput(im, WIDEST).None?;
  }

  lemma {:induction false} RequestTexts()
    ensures Request().SceneTexts()
  {
    forall e | e in Request().entities ensures SceneText(e.key) && e.DisplayName() == e.key {
      var i :| 0 <= i < ENTITIES && e == Nth(i);
    }
  }

  lemma {:induction false} RequestAdmitted()
    ensures Request().SceneTexts() && ValidateImagination(Request(), WIDEST).None?
  {
    RequestTexts();
    RequestDistinct();
    NoBadEntity(Request().entities, {});
    assert Request().entities[0] == Nth(0);
    WidestAdmits(Request());
  }

  /** Each entity keeps its preferred identity in an empty scene. */
  function Preferred(es: seq<ImaginedEntity>): seq<EntityPlan> {
    seq(|es|, i requires 0 <= i < |es| =>
      PlanEntity(es[i], if es[i].preferredId.Some? then es[i].preferredId.value else 0))
  }

  /** Every entity of the request keeps its preferred identity, because no two ask for the same. */
  lemma {:induction false} PreferredPlans(pf: Platform, attempts: nat)
    ensures PlannedPrefix(pf, Request(), SceneView(0, {}), attempts, KeyOrder(Request()),
      Preferred(KeyOrder(Request())))
  {
    var es := KeyOrder(Request());
    forall i | 0 <= i < |es| ensures es[i].preferredId.Some? { PreferredGiven(es, i); }
    forall i, j | 0 <= i < j < |es| ensures es[i].preferredId != es[j].preferredId { PreferredDiffer(es, i, j); }
    PreferredPlanned(pf, Request(), es, attempts);
  }

  lemma {:induction false} PreferredGiven(es: seq<ImaginedEntity>, i: nat)
    requires es == KeyOrder(Request()) && i < |es|
    ensures es[i].preferredId.Some?
  {
    assert es[i] in Elements(es);
    var n := Position(es[i]);
  }

  lemma {:induction false} PreferredDiffer(es: seq<ImaginedEntity>, i: nat, j: nat)
    requires es == KeyOrder(Request()) && i < j < |es|
    ensures es[i].preferredId != es[j].preferredId
  {
    RequestDistinct();
    KeyOrderStrict(Request());
    var m := Position(es[i]);
    var n := Position(es[j]);
  }

  /** Distinct preferred identities in an empty scene are all granted. */
  lemma {:induction false} PreferredPlanned(pf: Platform, im: Imagination, es: seq<ImaginedEntity>, attempts: nat)
    requires forall i | 0 <= i < |es| :: es[i].preferredId.Some?
    requires forall i, j | 0 <= i < j < |es| :: es[i].preferredId != es[j].preferredId
    ensures PlannedPrefix(pf, im, SceneView(0, {}), attempts, es, Preferred(es))
  {
    var base := Preferred(es);
    forall i | 0 <= i < |base|
      ensures ChooseId(pf, im, es[i], {} + Ids(base[..i]), attempts) == Some(base[i].entityId)
    {
      forall j | 0 <= j < i ensures base[..i][j].entityId != base[i].entityId {
        assert es[j].preferredId != es[i].preferredId;
      }
    }
  }

  lemma {:induction false} Position(e: ImaginedEntity) returns (n: nat)
    requires e in Elements(KeyOrder(Request()))
    ensures n < ENTITIES && e == Nth(n)
  {
    RequestDistinct();
    KeyOrderStrict(Request());
    n :| 0 <= n < |Request().entities| && Request().entities[n] == e;
  }

  /** Without relations and constraints everything compiles. */
  lemma {:induction false} NoRelationsCompile(pf: Platform, im: Imagination, scene: SceneView)
    requires im.relations == [] && im.constraints == []
    ensures Compilable(pf, im, scene)
  {
    forall k | k in Keys(im) ensures k !in ParentGraph(im) && k !in PlacementGraph(im) {
      OwnerIsFirst(im, k, 0);
    }
  }

  lemma {:induction false} CompilesAsPlanned(
    pf: Platform, im: Imagination, scene: SceneView, attempts: nat, base: seq<EntityPlan>)
    returns (plans: seq<EntityPlan>)
    requires im.DistinctKeys() && im.relations == [] && im.constraints == [] && |base| == |KeyOrder(im)|
    requires PlannedPrefix(pf, im, scene, attempts, KeyOrder(im), base)
    ensures Compiled(pf, im, scene, attempts, base, plans)
  {
    NoRelationsCompile(pf, im, scene);
    PlannedAreFresh(pf, im, scene, attempts, base);
    plans := FinalPlans(pf, im, base);
  }

  /** The compiled patch of the request exists and is refused for its component count. */
  lemma {:induction false} AdmittedButRefused(pf: Platform, attempts: nat)
    returns (base: seq<EntityPlan>, plans: seq<EntityPlan>)
    ensures Request().SceneTexts() && ValidateImagination(Request(), WIDEST).None?
    ensures Compiled(pf, Request(), SceneView(0, {}), attempts, base, plans)
    ensures ValidatePatch(PatchOf(Request(), plans), WIDEST).Some?
  {
    RequestAdmitted();
    RequestDistinct();
    base := Preferred(KeyOrder(Request()));
    PreferredPlans(pf, attempts);
    plans := CompilesAsPlanned(pf, Request(), SceneView(0, {}), attempts, base);
    PatchAdmittedIff(pf, Request(), SceneView(0, {}), attempts, base, plans, WIDEST);
    assert |Request().entities| == ENTITIES;
  }
}
