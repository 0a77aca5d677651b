/** Compiler reports: canonical order, validation and derived limits (crates/cogniform-compilation). */
module CompilationReport {
  import opened Machine
  import opened Ordering
  import opened Protocol

  datatype DecisionCode =
    | GeneratedEntityId | PreferredEntityIdSubstituted
    | DefaultName | DefaultTransform | DefaultMaterial
    | ParentRelationApplied | AboveRelationApplied | RightOfRelationApplied
  {
    function Rank(): nat {
      match this
      case GeneratedEntityId => 0
      case PreferredEntityIdSubstituted => 1
      case DefaultName => 2
      case DefaultTransform => 3
      case DefaultMaterial => 4
      case ParentRelationApplied => 5
      case AboveRelationApplied => 6
      case RightOfRelationApplied => 7
    }
  }

  datatype Decision = Decision(
    code: DecisionCode, entityKey: Text, relationIndex: Option<nat>, entityId: Option<EntityId>)

  /** Field order of `CompilationDecision::canonical_cmp`; the entity ID does not take part. */
  function DecisionCmp(a: Decision, b: Decision): Order {
    TextCmp(a.entityKey, b.entityKey)
      .Then(NatCmp(a.code.Rank(), b.code.Rank()))
      .Then(OptionNatCmp(a.relationIndex, b.relationIndex))
  }

  datatype UnresolvedCode =
    | UnknownEntityReference | SelfRelation | ConflictingRelation | HierarchyCycle | PlacementCycle
    | RequiredEntityMissing | RequiredEntityPresent | NonFinitePlacement | UnsupportedSpatialRotation
  {
    function Rank(): nat {
      match this
      case UnknownEntityReference => 0
      case SelfRelation => 1
      case ConflictingRelation => 2
      case HierarchyCycle => 3
      case PlacementCycle => 4
      case RequiredEntityMissing => 5
      case RequiredEntityPresent => 6
      case NonFinitePlacement => 7
      case UnsupportedSpatialRotation => 8
    }
  }

  datatype Unresolved = Unresolved(
    code: UnresolvedCode, relationIndex: Option<nat>, constraintIndex: Option<nat>,
    entityKey: Option<Text>, relatedKey: Option<Text>, entityId: Option<EntityId>)

  // `UnresolvedConstraint::canonical_cmp`, field by field.

  function UnresolvedHead(a: Unresolved, b: Unresolved): Order {
    OptionNatCmp(a.relationIndex, b.relationIndex)
      .Then(OptionNatCmp(a.constraintIndex, b.constraintIndex))
      .Then(NatCmp(a.code.Rank(), b.code.Rank()))
  }

  function UnresolvedKeys(a: Unresolved, b: Unresolved): Order {
    UnresolvedHead(a, b).Then(OptionTextCmp(a.entityKey, b.entityKey))
  }

  function UnresolvedRelated(a: Unresolved, b: Unresolved): Order {
    UnresolvedKeys(a, b).Then(OptionTextCmp(a.relatedKey, b.relatedKey))
  }

  function UnresolvedCmp(a: Unresolved, b: Unresolved): Order {
    UnresolvedRelated(a, b).Then(OptionNatCmp(a.entityId, b.entityId))
  }

  lemma DecisionLawful(a: Decision, b: Decision, c: Decision)
    ensures Lawful(DecisionCmp, a, b, c)
  {
    TextCmpLawful(a.entityKey, b.entityKey, c.entityKey);
    var key, rank := (x: Decision, y: Decision) => TextCmp(x.entityKey, y.entityKey),
                     (x: Decision, y: Decision) => NatCmp(x.code.Rank(), y.code.Rank());
    var index := (x: Decision, y: Decision) => OptionNatCmp(x.relationIndex, y.relationIndex);
    ThenLaw(key(a, b), key(b, a), key(b, c), key(a, c), rank(a, b), rank(b, a), rank(b, c), rank(a, c));
    ThenLaw(key(a, b).Then(rank(a, b)), key(b, a).Then(rank(b, a)), key(b, c).Then(rank(b, c)),
      key(a, c).Then(rank(a, c)), index(a, b), index(b, a), index(b, c), index(a, c));
  }

  lemma DecisionOrder()
    ensures TotalOrder(DecisionCmp)
  {
    forall a, b, c ensures Lawful(DecisionCmp, a, b, c) {
      DecisionLawful(a, b, c);
    }
  }

  lemma OptionTextLawful(a: Option<Text>, b: Option<Text>, c: Option<Text>)
    ensures Lawful(OptionTextCmp, a, b, c)
    ensures OptionTextCmp(a, b) == Equal ==> a == b
  {
    if a.Some? && b.Some? { TextCmpLawful(a.value, b.value, if c.Some? then c.value else []); }
  }

  lemma UnresolvedHeadLawful(a: Unresolved, b: Unresolved, c: Unresolved)
    ensures Lawful(UnresolvedHead, a, b, c)
    ensures UnresolvedHead(a, b) == Equal ==>
      a.relationIndex == b.relationIndex && a.constraintIndex == b.constraintIndex && a.code == b.code
  {
  }

  lemma UnresolvedKeysLawful(a: Unresolved, b: Unresolved, c: Unresolved)
    ensures Lawful(UnresolvedKeys, a, b, c)
    ensures UnresolvedKeys(a, b) == Equal ==>
      a.relationIndex == b.relationIndex && a.constraintIndex == b.constraintIndex && a.code == b.code
      && a.entityKey == b.entityKey
  {
    UnresolvedHeadLawful(a, b, c);
    OptionTextLawful(a.entityKey, b.entityKey, c.entityKey);
  }

  lemma UnresolvedLawful(a: Unresolved, b: Unresolved, c: Unresolved)
    ensures Lawful(UnresolvedCmp, a, b, c)
    ensures UnresolvedCmp(a, b) == Equal ==> a == b
  {
    UnresolvedKeysLawful(a, b, c);
    OptionTextLawful(a.relatedKey, b.relatedKey, c.relatedKey);
    assert Lawful(UnresolvedRelated, a, b, c);
  }

  lemma UnresolvedOrder()
    ensures TotalOrder(UnresolvedCmp)
    ensures forall a, b :: UnresolvedCmp(a, b) == Equal ==> a == b
  {
    forall a: Unresolved, b: Unresolved, c: Unresolved ensures Lawful(UnresolvedCmp, a, b, c) {
      UnresolvedLawful(a, b, c);
    }
    forall a: Unresolved, b: Unresolved ensures UnresolvedCmp(a, b) == Equal ==> a == b {
      UnresolvedLawful(a, b, b);
    }
  }

  // ----- results -----

  datatype CompilationResult = CompilationResult(
    schemaVersion: nat, imaginationId: nat, sceneRevision: nat, patch: Option<Patch>,
    decisions: seq<Decision>, unresolved: seq<Unresolved>)
  {
    function TextBytes(): nat {
      (if patch.Some? then patch.value.TextBytes() else 0)
      + Sum(decisions, DecisionText) + Sum(unresolved, UnresolvedText)
    }
    function LogicalBytes(): nat {
      35 + (if patch.Some? then patch.value.LogicalBytes() else 0)
      + Sum(decisions, DecisionBytes) + Sum(unresolved, UnresolvedBytes)
    }
  }

  function OptionText(t: Option<Text>): nat { if t.Some? then |t.value| else 0 }

  function DecisionText(d: Decision): nat { |d.entityKey| }

  function DecisionBytes(d: Decision): nat {
    8 + |d.entityKey| + (if d.relationIndex.Some? then 4 else 0) + (if d.entityId.Some? then 16 else 0)
  }

  function UnresolvedText(u: Unresolved): nat { OptionText(u.entityKey) + OptionText(u.relatedKey) }

  function UnresolvedBytes(u: Unresolved): nat {
    14 + (if u.relationIndex.Some? then 4 else 0) + (if u.constraintIndex.Some? then 4 else 0)
    + UnresolvedText(u) + (if u.entityId.Some? then 16 else 0)
  }

  predicate DecisionShape(d: Decision) {
    match d.code
    case GeneratedEntityId | PreferredEntityIdSubstituted => d.relationIndex.None? && d.entityId.Some?
    case DefaultName | DefaultTransform | DefaultMaterial => d.relationIndex.None? && d.entityId.None?
    case _ => d.relationIndex.Some? && d.entityId.None?
  }

  predicate UnresolvedShape(u: Unresolved) {
    match u.code
    case RequiredEntityMissing | RequiredEntityPresent =>
      u.relationIndex.None? && u.constraintIndex.Some? && u.entityKey.None? && u.relatedKey.None? && u.entityId.Some?
    case _ =>
      u.relationIndex.Some? && u.constraintIndex.None? && u.entityKey.Some? && u.relatedKey.Some? && u.entityId.None?
  }

  datatype ReportError =
    | UnsupportedResultSchema | DecisionLimitExceeded | UnresolvedLimitExceeded
    | PatchSchemaMismatch | PatchRevisionMismatch | PatchRejected(diagnostic: Diagnostic) | InvalidOutcome
    | InvalidDecisionShape | DuplicateDecision | NonCanonicalDecisionOrder
    | InvalidUnresolvedShape | DuplicateUnresolved | NonCanonicalUnresolvedOrder
    | ReportTextLimitExceeded | ReportSizeLimitExceeded

  /** The comparison of the first adjacent pair that is not `Less`, as `windows(2)` finds it. */
  function FirstDisorder<T>(s: seq<T>, cmp: Compare<T>): Option<Order> {
    if |s| < 2 then None
    else if cmp(s[0], s[1]) != Less then Some(cmp(s[0], s[1]))
    else FirstDisorder(s[1..], cmp)
  }

  lemma StrictTail<T(!new)>(s: seq<T>, cmp: Compare<T>)
    requires |s| >= 2 && StrictlySorted(s, cmp)
    ensures cmp(s[0], s[1]) == Less && StrictlySorted(s[1..], cmp)
  {
    forall i, j | 0 <= i < j < |s[1..]| ensures cmp(s[1..][i], s[1..][j]) == Less {
      assert cmp(s[i + 1], s[j + 1]) == Less;
    }
  }

  lemma StrictCons<T(!new)>(s: seq<T>, cmp: Compare<T>)
    requires TotalOrder(cmp) && |s| >= 2 && cmp(s[0], s[1]) == Less && StrictlySorted(s[1..], cmp)
    ensures StrictlySorted(s, cmp)
  {
    forall i, j | 0 <= i < j < |s| ensures cmp(s[i], s[j]) == Less {
      assert s[j] == s[1..][j - 1];
      if i > 0 {
        assert s[i] == s[1..][i - 1];
      } else if j > 1 {
        assert cmp(s[1..][0], s[1..][j - 1]) == Less;
        assert Lawful(cmp, s[0], s[1], s[j]);
      }
    }
  }

  /** Checking neighbours is the same as checking every pair. */
  lemma {:induction false} NeighboursDecideOrder<T(!new)>(s: seq<T>, cmp: Compare<T>)
    requires TotalOrder(cmp)
    ensures FirstDisorder(s, cmp).None? <==> StrictlySorted(s, cmp)
  {
    if |s| >= 2 {
      NeighboursDecideOrder(s[1..], cmp);
      if StrictlySorted(s, cmp) { StrictTail(s, cmp); }
      if cmp(s[0], s[1]) == Less && StrictlySorted(s[1..], cmp) { StrictCons(s, cmp); }
    }
  }

  function CheckDecisions(ds: seq<Decision>): Option<ReportError> {
    if exists d | d in ds :: !DecisionShape(d) then Some(InvalidDecisionShape)
    else match FirstDisorder(ds, DecisionCmp)
      case None => None
      case Some(Equal) => Some(DuplicateDecision)
      case Some(_) => Some(NonCanonicalDecisionOrder)
  }

  function CheckUnresolved(us: seq<Unresolved>): Option<ReportError> {
    if exists u | u in us :: !UnresolvedShape(u) then Some(InvalidUnresolvedShape)
    else match FirstDisorder(us, UnresolvedCmp)
      case None => None
      case Some(Equal) => Some(DuplicateUnresolved)
      case Some(_) => Some(NonCanonicalUnresolvedOrder)
  }

  function CheckOutcome(r: CompilationResult, limits: RuntimeLimits): Option<ReportError> {
    match r.patch
    case Some(p) =>
      if r.unresolved != [] then Some(InvalidOutcome)
      else if p.schemaVersion != r.schemaVersion then Some(PatchSchemaMismatch)
      else if p.baseRevision != r.sceneRevision then Some(PatchRevisionMismatch)
      else (match ValidatePatch(p, limits) case None => None case Some(d) => Some(PatchRejected(d)))
    case None => if r.unresolved == [] then Some(InvalidOutcome) else None
  }

  /** `CompilationResult::validate`. */
  function ValidateResult(r: CompilationResult, limits: CompilationLimits): Option<ReportError> {
    if r.schemaVersion != SCHEMA_V1 then Some(UnsupportedResultSchema)
    else if Sat32(|r.decisions|) > limits.maxDecisions then Some(DecisionLimitExceeded)
    else if Sat32(|r.unresolved|) > limits.maxUnresolvedConstraints then Some(UnresolvedLimitExceeded)
    else if CheckOutcome(r, limits.patchLimits).Some? then CheckOutcome(r, limits.patchLimits)
    else if CheckDecisions(r.decisions).Some? then CheckDecisions(r.decisions)
    else if CheckUnresolved(r.unresolved).Some? then CheckUnresolved(r.unresolved)
    else if Sat64(r.TextBytes()) > limits.maxTextBytes then Some(ReportTextLimitExceeded)
    else if Sat64(r.LogicalBytes()) > limits.maxDecodedBytes then Some(ReportSizeLimitExceeded)
    else None
  }

  // ----- limits -----

  datatype CompilationLimits = CompilationLimits(
    maxEncodedBytes: NonZero64, maxDecodedBytes: NonZero64, maxJsonNestingDepth: NonZero16,
    maxTextBytes: NonZero64, maxDecisions: NonZero32, maxUnresolvedConstraints: NonZero32,
    patchLimits: RuntimeLimits)

  const MAX_DECISIONS_PER_ENTITY := 4
  const RESULT_TEXT_MULTIPLIER := 6
  const DECISION_LOGICAL_OVERHEAD := 27
  const UNRESOLVED_LOGICAL_OVERHEAD := 38
  const RESULT_LOGICAL_OVERHEAD := 35
  const MAX_ESCAPED_BYTES_PER_TEXT_BYTE := 6
  const DECISION_ENCODED_OVERHEAD := 192
  const UNRESOLVED_ENCODED_OVERHEAD := 256
  const RESULT_ENCODED_OVERHEAD := 1_024
  const COMPILATION_JSON_NESTING_DEPTH := 9

  /** `CompilationLimits::for_runtime_limits`. */
  function DerivedLimits(l: RuntimeLimits): CompilationLimits {
    var decisions := Sat32(Sat32(l.maxImaginationEntities * MAX_DECISIONS_PER_ENTITY) + l.maxImaginationRelations);
    var unresolved := Sat32(l.maxImaginationRelations + l.maxImaginationConstraints);
    var text := Sat64(l.maxTextBytes * RESULT_TEXT_MULTIPLIER);
    var decoded := Sat64(Sat64(Sat64(Sat64(l.maxDecodedBytes + text)
      + Sat64(decisions * DECISION_LOGICAL_OVERHEAD))
      + Sat64(unresolved * UNRESOLVED_LOGICAL_OVERHEAD)) + RESULT_LOGICAL_OVERHEAD);
    var encoded := Sat64(Sat64(Sat64(Sat64(l.maxEncodedBytes + Sat64(text * MAX_ESCAPED_BYTES_PER_TEXT_BYTE))
      + Sat64(decisions * DECISION_ENCODED_OVERHEAD))
      + Sat64(unresolved * UNRESOLVED_ENCODED_OVERHEAD)) + RESULT_ENCODED_OVERHEAD);
    var nested := Min(l.maxJsonNestingDepth + 1, U16_MAX);
    var nesting := if nested < COMPILATION_JSON_NESTING_DEPTH then COMPILATION_JSON_NESTING_DEPTH else nested;
    CompilationLimits(encoded, decoded, nesting, text, decisions, unresolved, l)
  }
}
