/** Negotiated receive limits form a meet semilattice (local-session message.rs, codec.rs). */
module SessionLimits {
  import opened Machine
  import opened Protocol
  import opened CompilationReport
  import opened LimitOrder
  import FrameCodec

  datatype Limits = Limits(
    maxFrame: NonZero64, maxControl: NonZero64, maxBulk: NonZero64, maxEnvelope: NonZero64, maxVisibility: NonZero32,
    runtime: RuntimeLimits)

  datatype Config = Config(
    maxFrame: NonZero64, maxControl: NonZero64, maxBulk: NonZero64, runtime: RuntimeLimits,
    maxEnvelope: NonZero64, maxVisibility: NonZero32)

  datatype LimitError = FrameBytes | ControlBytes | BulkBytes | EnvelopeBytes | ComponentsPerEntity

  function Validate(l: Limits): Option<LimitError> {
    if l.maxFrame < FrameCodec.HEADER_BYTES then Some(FrameBytes)
    else if l.maxControl > l.maxFrame - FrameCodec.HEADER_BYTES || l.maxControl > l.runtime.maxEncodedBytes then
      Some(ControlBytes)
    else if l.maxBulk > l.maxFrame - FrameCodec.HEADER_BYTES then Some(BulkBytes)
    else if l.maxEnvelope > l.maxBulk then Some(EnvelopeBytes)
    else if l.runtime.maxComponentsPerEntity > l.runtime.maxComponents then Some(ComponentsPerEntity)
    else None
  }

  predicate Valid(l: Limits) { Validate(l).None? }

  /** A checked result: the value if it is valid. */
  function Checked(l: Limits): Result<Limits, LimitError> {
    var invalid := Validate(l);
    if invalid.Some? then Err(invalid.value) else Ok(l)
  }

  function FromConfig(c: Config): Result<Limits, LimitError> {
    if c.maxFrame < FrameCodec.HEADER_BYTES then Err(FrameBytes)
    else
      var body := c.maxFrame - FrameCodec.HEADER_BYTES;
      var control := Min(Min(body, c.maxControl), c.runtime.maxEncodedBytes);
      var bulk := Min(body, c.maxBulk);
      if control == 0 then Err(ControlBytes)
      else if bulk == 0 then Err(BulkBytes)
      else Checked(Limits(c.maxFrame, control, bulk, Min(bulk, c.maxEnvelope), c.maxVisibility, c.runtime))
  }

  function ToConfig(l: Limits): Result<Config, LimitError> {
    var invalid := Validate(l);
    if invalid.Some? then Err(invalid.value)
    else Ok(Config(l.maxFrame, l.maxControl, l.maxBulk, l.runtime, l.maxEnvelope, l.maxVisibility))
  }

  function IntersectRuntime(a: RuntimeLimits, b: RuntimeLimits): RuntimeLimits {
    RuntimeLimits(
      Min(a.maxEncodedBytes, b.maxEncodedBytes),
      Min(a.maxDecodedBytes, b.maxDecodedBytes),
      Min(a.maxJsonNestingDepth, b.maxJsonNestingDepth),
      Min(a.maxOperations, b.maxOperations),
      Min(a.maxComponents, b.maxComponents),
      Min(Min(a.maxComponentsPerEntity, b.maxComponentsPerEntity), Min(a.maxComponents, b.maxComponents)),
      Min(a.maxTextBytes, b.maxTextBytes),
      Min(a.maxDiagnostics, b.maxDiagnostics),
      Min(a.maxQueueCapacity, b.maxQueueCapacity),
      Min(a.maxImaginationEntities, b.maxImaginationEntities),
      Min(a.maxImaginationRelations, b.maxImaginationRelations),
      Min(a.maxImaginationConstraints, b.maxImaginationConstraints),
      Min(a.maxQueryEntities, b.maxQueryEntities),
      Min(a.maxObservationWidth, b.maxObservationWidth),
      Min(a.maxObservationHeight, b.maxObservationHeight),
      Min(a.maxObservationPixels, b.maxObservationPixels))
  }

  function Intersect(a: Limits, b: Limits): Result<Limits, LimitError> {
    var left, right := Validate(a), Validate(b);
    if left.Some? then Err(left.value)
    else if right.Some? then Err(right.value)
    else
      var runtime := IntersectRuntime(a.runtime, b.runtime);
      var frame := Min(a.maxFrame, b.maxFrame);
      if frame < FrameCodec.HEADER_BYTES then Err(FrameBytes)
      else if frame == FrameCodec.HEADER_BYTES then Err(ControlBytes)
      else
        var bulk := Min(a.maxBulk, b.maxBulk);
        Checked(Limits(
          frame,
          Min(Min(Min(a.maxControl, b.maxControl), runtime.maxEncodedBytes), frame - FrameCodec.HEADER_BYTES), bulk,
          Min(Min(a.maxEnvelope, b.maxEnvelope), bulk), Min(a.maxVisibility, b.maxVisibility), runtime))
  }

  function Negotiate(advertised: Limits, local: Config): Result<Limits, LimitError> {
    var invalid, own := Validate(advertised), FromConfig(local);
    if invalid.Some? then Err(invalid.value) else if own.Err? then Err(own.error) else Intersect(advertised, own.value)
  }

  /** The order of `fits_within_config`. */
  predicate Fits(a: Limits, b: Limits) {
    && a.maxFrame <= b.maxFrame && a.maxControl <= b.maxControl && a.maxBulk <= b.maxBulk
    && a.maxEnvelope <= b.maxEnvelope && a.maxVisibility <= b.maxVisibility && RuntimeFit(a.runtime, b.runtime)
  }

  // ----- the lattice -----

  /** The field-wise minimum of runtime limits, with no correction. */
  function RuntimeMeet(a: RuntimeLimits, b: RuntimeLimits): RuntimeLimits {
    IntersectRuntime(a, b).(maxComponentsPerEntity := Min(a.maxComponentsPerEntity, b.maxComponentsPerEntity))
  }

  /** The field-wise minimum. */
  function Meet(a: Limits, b: Limits): Limits {
    Limits(Min(a.maxFrame, b.maxFrame), Min(a.maxControl, b.maxControl), Min(a.maxBulk, b.maxBulk),
           Min(a.maxEnvelope, b.maxEnvelope), Min(a.maxVisibility, b.maxVisibility), RuntimeMeet(a.runtime, b.runtime))
  }

  /** On valid limits intersection always succeeds, and none of its corrections changes a field-wise minimum. */
  lemma IntersectIsMeet(a: Limits, b: Limits)
    requires Valid(a) && Valid(b)
    ensures Intersect(a, b) == Ok(Meet(a, b)) && Valid(Meet(a, b))
  {
  }

  lemma RuntimeMeetBelow(a: RuntimeLimits, b: RuntimeLimits)
    ensures RuntimeFit(IntersectRuntime(a, b), a) && RuntimeFit(IntersectRuntime(a, b), b)
  {
  }

  lemma RuntimeMeetGreatest(a: RuntimeLimits, b: RuntimeLimits, c: RuntimeLimits)
    requires RuntimeFit(c, a) && RuntimeFit(c, b) && c.maxComponentsPerEntity <= c.maxComponents
    ensures RuntimeFit(c, IntersectRuntime(a, b))
  {
  }

  /** Intersection is the greatest valid limits both peers admit. */
  lemma {:induction false} IntersectIsGreatest(a: Limits, b: Limits, c: Limits)
    requires Valid(a) && Valid(b) && Valid(c)
    ensures Intersect(a, b).Ok?
    ensures Fits(c, Intersect(a, b).value) <==> Fits(c, a) && Fits(c, b)
  {
    IntersectIsMeet(a, b);
    RuntimeMeetBelow(a.runtime, b.runtime);
    if Fits(c, a) && Fits(c, b) { RuntimeMeetGreatest(a.runtime, b.runtime, c.runtime); }
  }

  lemma FitsAntisymmetric(a: Limits, b: Limits)
    requires Fits(a, b) && Fits(b, a)
    ensures a == b
  {
  }

  lemma FitsReflexive(a: Limits)
    ensures Fits(a, a)
  {
  }

  /** Two valid limits with the same valid limits below them are equal. */
  lemma {:induction false} SameBelow(a: Limits, b: Limits)
    requires Valid(a) && Valid(b)
    requires forall c | Valid(c) :: Fits(c, a) <==> Fits(c, b)
    ensures a == b
  {
    FitsReflexive(a);
    FitsReflexive(b);
    FitsAntisymmetric(a, b);
  }

  lemma {:induction false} IntersectCommutes(a: Limits, b: Limits)
    requires Valid(a) && Valid(b)
    ensures Intersect(a, b) == Intersect(b, a)
  {
    IntersectIsMeet(a, b);
    IntersectIsMeet(b, a);
    forall c | Valid(c) ensures Fits(c, Meet(a, b)) <==> Fits(c, Meet(b, a)) {
      IntersectIsGreatest(a, b, c);
      IntersectIsGreatest(b, a, c);
    }
    SameBelow(Meet(a, b), Meet(b, a));
  }

  /** The order in which peers join does not matter. */
  lemma {:induction false} IntersectAssociates(a: Limits, b: Limits, c: Limits)
    requires Valid(a) && Valid(b) && Valid(c)
    ensures Intersect(a, b).Ok? && Intersect(b, c).Ok?
    ensures Intersect(Intersect(a, b).value, c) == Intersect(a, Intersect(b, c).value)
  {
    IntersectIsMeet(a, b);
    IntersectIsMeet(b, c);
    var left, right := Meet(Meet(a, b), c), Meet(a, Meet(b, c));
    IntersectIsMeet(Meet(a, b), c);
    IntersectIsMeet(a, Meet(b, c));
    forall x | Valid(x) ensures Fits(x, left) <==> Fits(x, right) {
      IntersectIsGreatest(a, b, x);
      IntersectIsGreatest(b, c, x);
      IntersectIsGreatest(Meet(a, b), c, x);
      IntersectIsGreatest(a, Meet(b, c), x);
    }
    SameBelow(left, right);
  }

  lemma {:induction false} IntersectIdempotent(a: Limits)
    requires Valid(a)
    ensures Intersect(a, a) == Ok(a)
  {
    IntersectIsMeet(a, a);
    IntersectIsGreatest(a, a, a);
    FitsReflexive(a);
    IntersectIsGreatest(a, a, Meet(a, a));
    FitsReflexive(Meet(a, a));
    FitsAntisymmetric(a, Meet(a, a));
  }

  // ----- configurations -----

  /** A configuration yields limits exactly when a frame has a body and entities respect the component bound. */
  lemma {:induction false} FromConfigIff(c: Config)
    ensures FromConfig(c).Ok? <==>
      c.maxFrame > FrameCodec.HEADER_BYTES && c.runtime.maxComponentsPerEntity <= c.runtime.maxComponents
    ensures FromConfig(c).Ok? ==> Valid(FromConfig(c).value)
  {
  }

  /** Negotiated limits turned into a frame configuration describe themselves. */
  lemma {:induction false} ConfigRoundTrip(l: Limits)
    requires Valid(l)
    ensures ToConfig(l).Ok? && FromConfig(ToConfig(l).value) == Ok(l)
  {
  }

  /** `effective_message_limit` of a frame configuration. */
  function EffectiveMessageLimit(c: Config): Option<nat> {
    if c.maxFrame < FrameCodec.HEADER_BYTES then None
    else
      var limit := Min(Min(c.maxFrame - FrameCodec.HEADER_BYTES, c.maxControl), c.runtime.maxEncodedBytes);
      if limit == 0 then None else Some(limit)
  }

  /**
   * Negotiation gives limits within both sides' policy, and the codec configured from them enforces exactly the
   * negotiated control limit.
   */
  lemma {:induction false} NegotiatedLimitsEnforced(advertised: Limits, local: Config)
    requires Negotiate(advertised, local).Ok?
    ensures var agreed := Negotiate(advertised, local).value;
      && Valid(agreed) && Fits(agreed, advertised)
      && FromConfig(local).Ok? && Fits(agreed, FromConfig(local).value)
      && ToConfig(agreed).Ok? && EffectiveMessageLimit(ToConfig(agreed).value) == Some(agreed.maxControl)
  {
    var own := FromConfig(local).value;
    FromConfigIff(local);
    IntersectIsMeet(advertised, own);
    var agreed := Meet(advertised, own);
    IntersectIsGreatest(advertised, own, agreed);
    FitsReflexive(agreed);
    ConfigRoundTrip(agreed);
  }

  // ----- compilation limits -----

  predicate ValidCompilation(l: CompilationLimits) {
    l.patchLimits.maxComponentsPerEntity <= l.patchLimits.maxComponents
  }

  function IntersectCompilation(a: CompilationLimits, b: CompilationLimits): Option<CompilationLimits> {
    if !ValidCompilation(a) || !ValidCompilation(b) then None
    else
      var l := CompilationLimits(
        Min(a.maxEncodedBytes, b.maxEncodedBytes), Min(a.maxDecodedBytes, b.maxDecodedBytes),
        Min(a.maxJsonNestingDepth, b.maxJsonNestingDepth), Min(a.maxTextBytes, b.maxTextBytes),
        Min(a.maxDecisions, b.maxDecisions), Min(a.maxUnresolvedConstraints, b.maxUnresolvedConstraints),
        IntersectRuntime(a.patchLimits, b.patchLimits));
      if ValidCompilation(l) then Some(l) else None
  }

  /** The same for compilation limits. */
  lemma {:induction false} IntersectCompilationIsGreatest(
    a: CompilationLimits, b: CompilationLimits, c: CompilationLimits)
    requires ValidCompilation(a) && ValidCompilation(b) && ValidCompilation(c)
    ensures IntersectCompilation(a, b).Some? && ValidCompilation(IntersectCompilation(a, b).value)
    ensures CompilationFit(c, IntersectCompilation(a, b).value) <==> CompilationFit(c, a) && CompilationFit(c, b)
  {
    RuntimeMeetBelow(a.patchLimits, b.patchLimits);
    if CompilationFit(c, a) && CompilationFit(c, b) {
      RuntimeMeetGreatest(a.patchLimits, b.patchLimits, c.patchLimits);
    }
  }
}
