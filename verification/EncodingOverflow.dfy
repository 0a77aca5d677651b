/** A request that admission accepts and whose own report does not fit the derived encoded size (limits.rs). */
module EncodingOverflow {
  import opened Machine
  import opened Ordering
  import opened Protocol
  import opened CompilationReport
  import opened Planning
  import opened Placements
  import opened CompiledPatch
  import opened CompiledReport
  import opened ComponentOverflow
  import opened ReportJson
  import opened ReportEncoding
  import opened EncodedBytes
  import opened EncodedReports

  // ----- entities that leave everything to the compiler -----

  predicate Bare(e: ImaginedEntity) {
    e.key != [] && e.preferredId.None? && e.name.None? && e.transform.None? && e.material.None?
  }

  /** Whatever transform it gets, its create operation takes at least 503 bytes. */
  lemma {:induction false} BareCreate(show: Show, e: ImaginedEntity, t: Transform)
    requires Bare(e)
    ensures CreateBytes(show, e, t) >= 503
  {
    assert |ShapeName(e.primitive.shape)| >= 5;
  }

  lemma {:induction false} BareCreates(pf: Platform, show: Show, im: Imagination, es: seq<ImaginedEntity>)
    requires Placeable(pf, im, es) && forall x | 0 <= x < |es| :: Bare(es[x])
    ensures CreateSlots(pf, show, im, es) >= 503 * |es|
  {
    if es != [] {
      var n := |es| - 1;
      PlaceableBefore(pf, im, es, n);
      BareCreates(pf, show, im, es[..n]);
      BareCreate(show, es[n], Placed(pf, im, es[n].key).value);
    }
  }

  /** Its four explanations take at least 366. */
  lemma {:induction false} BareExplanations(es: seq<ImaginedEntity>, base: seq<EntityPlan>)
    requires |base| <= |es| && forall x | 0 <= x < |es| :: Bare(es[x])
    ensures ExplanationSlots(es, base) >= 366 * |base|
  {
    if base != [] { BareExplanations(es, base[..|base| - 1]); }
  }

  // ----- the request -----

  const COUNT: nat := 32

  const CRAMPED: RuntimeLimits := RuntimeLimits(
    1, U64_MAX, U16_MAX, U32_MAX, U32_MAX, U32_MAX, COUNT, U32_MAX, U32_MAX, COUNT, 1, 1,
    U32_MAX, U32_MAX, U32_MAX, U64_MAX)

  const CRAMPED_BUDGET: ImaginationBudget :=
    ImaginationBudget(COUNT, 1, 1, PatchBudget(COUNT, 4 * COUNT, COUNT, U64_MAX))

  function BareKey(i: nat): (key: Text)
    requires i < COUNT
    ensures SceneText(key)
  {
    AsciiIsUtf8([64 + i]);
    [64 + i]
  }

  function BareEntity(i: nat): ImaginedEntity
    requires i < COUNT
  {
    ImaginedEntity(BareKey(i), None, None, Primitive(Cuboid, Vec3(F32_ONE, F32_ONE, F32_ONE)), None, None)
  }

  function BareRequest(): Imagination {
    Imagination(SCHEMA_V1, 1, 1, 1, 0, MustApply, 0, CRAMPED_BUDGET,
      seq(COUNT, i requires 0 <= i < COUNT => BareEntity(i)), [], [])
  }

  lemma {:induction false} TextOfBare(es: seq<ImaginedEntity>)
    requires forall x | 0 <= x < |es| :: |es[x].key| == 1 && es[x].name.None?
    ensures Sum(es, EntityText) == |es| && Sum(es, EntityNameBytes) == |es|
  {
    if es != [] { TextOfBare(es[1..]); }
  }

  lemma {:induction false} BareTexts()
    ensures BareRequest().SceneTexts()
  {
    forall e | e in BareRequest().entities ensures SceneText(e.key) && e.DisplayName() == e.key {
      var i :| 0 <= i < COUNT && e == BareEntity(i);
    }
  }

  lemma {:induction false} BareDistinct()
    ensures BareRequest().DistinctKeys() && FirstBadEntity(BareRequest().entities, {}).None?
  {
    var es := BareRequest().entities;
    forall i, j | 0 <= i < j < |es| ensures es[i].key != es[j].key { assert es[i].key[0] != es[j].key[0]; }
    NoBadEntity(es, {});
  }

  lemma {:induction false} BareFits(im: Imagination)
    requires im.schemaVersion == SCHEMA_V1 && im.declaredBudget == CRAMPED_BUDGET && im.delivery == MustApply
    requires im.relations == [] && im.constraints == [] && |im.entities| == COUNT
    requires FirstBadEntity(im.entities, {}).None?
    requires Sum(im.entities, EntityText) == COUNT && Sum(im.entities, EntityNameBytes) == COUNT
    ensures ValidateImagination(im, CRAMPED).None?
  {
    assert CheckCollections(im, CRAMPED).None? && CheckPatchBudget(im.declaredBudget.patch, CRAMPED).None?;
    assert CheckEntitiesAndOutput(im, CRAMPED).None?;
  }

  lemma {:induction false} BareTotals()
    ensures |BareRequest().entities| == COUNT
    ensures Sum(BareRequest().entities, EntityText) == COUNT && Sum(BareRequest().entities, EntityNameBytes) == COUNT
  {
    TextOfBare(BareRequest().entities);
  }

  lemma {:induction false} BareAdmitted()
    ensures BareRequest().SceneTexts() && BareRequest().DistinctKeys()
    ensures ValidateImagination(BareRequest(), CRAMPED).None?
  {
    var im := BareRequest();
    BareTexts();
    BareDistinct();
    assert ValidateImagination(im, CRAMPED).None? by {
      BareTotals();
      BareFits(im);
    }
  }

  // ----- identities -----

  function Candidate(pf: Platform, key: Text): nat { pf.candidateId(1, 0, key, 0) }

  /** The hash gives each key of the request its own identity at the first attempt. */
  ghost predicate Spreads(pf: Platform) {
    && (forall i: nat | i < COUNT :: Candidate(pf, BareKey(i)) != 0)
    && (forall i: nat, j: nat | i < j < COUNT :: Candidate(pf, BareKey(i)) != Candidate(pf, BareKey(j)))
  }

  function FirstCandidates(pf: Platform, es: seq<ImaginedEntity>): seq<EntityPlan> {
    seq(|es|, i requires 0 <= i < |es| => PlanEntity(es[i], Candidate(pf, es[i].key)))
  }

  lemma {:induction false} WhichBare(e: ImaginedEntity) returns (n: nat)
    requires e in Elements(KeyOrder(BareRequest()))
    ensures n < COUNT && e == BareEntity(n)
  {
    BareAdmitted();
    KeyOrderStrict(BareRequest());
    n :| 0 <= n < |BareRequest().entities| && BareRequest().entities[n] == e;
  }

  lemma {:induction false} CandidatesDiffer(pf: Platform, es: seq<ImaginedEntity>, i: nat, j: nat)
    requires Spreads(pf) && es == KeyOrder(BareRequest()) && i < j < |es|
    ensures Candidate(pf, es[i].key) != Candidate(pf, es[j].key)
  {
    BareAdmitted();
    KeyOrderStrict(BareRequest());
    var m := WhichBare(es[i]);
    var n := WhichBare(es[j]);
    assert m != n;
    if m > n { assert Candidate(pf, BareKey(n)) != Candidate(pf, BareKey(m)); }
  }

  /** A first candidate that is not zero and not taken is chosen. */
  lemma {:induction false} CandidateChosen(pf: Platform, e: ImaginedEntity, taken: set<EntityId>, attempts: NonZero32)
    requires e.preferredId.None? && Candidate(pf, e.key) != 0 && Candidate(pf, e.key) !in taken
    ensures ChooseId(pf, BareRequest(), e, taken, attempts) == Some(Candidate(pf, e.key))
  {
  }

  lemma {:induction false} CandidatesPlanned(pf: Platform, attempts: NonZero32)
    requires Spreads(pf)
    ensures var es := KeyOrder(BareRequest());
      PlannedPrefix(pf, BareRequest(), SceneView(0, {}), attempts, es, FirstCandidates(pf, es))
  {
    var es := KeyOrder(BareRequest());
    var base := FirstCandidates(pf, es);
    forall i | 0 <= i < |base|
      ensures ChooseId(pf, BareRequest(), es[i], {} + Ids(base[..i]), attempts) == Some(base[i].entityId)
    {
      var n := WhichBare(es[i]);
      assert Candidate(pf, BareKey(n)) != 0;
      forall j | 0 <= j < i ensures base[..i][j].entityId != base[i].entityId { CandidatesDiffer(pf, es, j, i); }
      CandidateChosen(pf, es[i], {} + Ids(base[..i]), attempts);
    }
  }

  /** There is such a hash. */
  lemma {:induction false} SomeHashSpreads() returns (pf: Platform)
    ensures Spreads(pf)
  {
    pf := Platform((x, y) => x, (x, y) => x, (id, seed, key: Text, attempt) => if key == [] then 0 else key[0]);
    forall i: nat | i < COUNT ensures Candidate(pf, BareKey(i)) == 64 + i { assert BareKey(i)[0] == 64 + i; }
  }

  /** With such a hash the request is planned at the first attempt and compiles. */
  lemma {:induction false} BareCompiles(pf: Platform, attempts: NonZero32)
    returns (base: seq<EntityPlan>, plans: seq<EntityPlan>)
    requires Spreads(pf)
    ensures Compiled(pf, BareRequest(), SceneView(0, {}), attempts, base, plans)
  {
    BareAdmitted();
    base := FirstCandidates(pf, KeyOrder(BareRequest()));
    CandidatesPlanned(pf, attempts);
    plans := CompilesAsPlanned(pf, BareRequest(), SceneView(0, {}), attempts, base);
  }

  // ----- the report -----

  lemma {:induction false} BareCount()
    ensures |KeyOrder(BareRequest())| == COUNT
  {
    BareAdmitted();
    KeyOrderStrict(BareRequest());
  }

  lemma {:induction false} BareOrder(x: nat)
    requires x < |KeyOrder(BareRequest())|
    ensures Bare(KeyOrder(BareRequest())[x])
  {
    assert KeyOrder(BareRequest())[x] in Elements(KeyOrder(BareRequest()));
    var n := WhichBare(KeyOrder(BareRequest())[x]);
  }

  lemma {:induction false} BareReportTooLong(pf: Platform, show: Show, base: seq<EntityPlan>)
    requires Placeable(pf, BareRequest(), KeyOrder(BareRequest())) && |base| == |KeyOrder(BareRequest())|
    ensures SuccessBytesOf(pf, show, BareRequest(), base) + 1 > DerivedLimits(CRAMPED).maxEncodedBytes
  {
    var es := KeyOrder(BareRequest());
    BareCount();
    forall x | 0 <= x < |es| ensures Bare(es[x]) { BareOrder(x); }
    BareCreates(pf, show, BareRequest(), es);
    BareExplanations(es, base);
  }

  /**
   * Thirty-two entities that leave everything to the compiler, under limits that admit the request but allow a single
   * encoded byte: however the request is planned, its compiled report passes every other check and does not fit the
   * derived encoded size.
   */
  lemma {:induction false} AdmittedButUnencodable(
    pf: Platform, show: Show, attempts: nat, base: seq<EntityPlan>, plans: seq<EntityPlan>)
    requires Compiled(pf, BareRequest(), SceneView(0, {}), attempts, base, plans)
    ensures BareRequest().SceneTexts() && ValidateImagination(BareRequest(), CRAMPED).None?
    ensures
      var r := SuccessReport(BareRequest(), SceneView(0, {}), SuccessDecisionsOf(BareRequest(), base, plans), plans);
      ValidateResult(r, DerivedLimits(CRAMPED)).None? && !Encodes(show, r, DerivedLimits(CRAMPED))
  {
    var im, scene := BareRequest(), SceneView(0, {});
    BareAdmitted();
    SuccessAdmittedIff(pf, im, scene, attempts, base, plans, CRAMPED);
    SuccessEncodesIff(pf, show, im, scene, attempts, base, plans, CRAMPED);
    BareReportTooLong(pf, show, base);
  }
}
