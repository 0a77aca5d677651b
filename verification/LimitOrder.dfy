/** The field-wise order on limits used by the gateway and by session negotiation. */
module LimitOrder {
  import opened Protocol
  import opened CompilationReport

  /** `runtime_limits_fit`. */
  predicate RuntimeFit(a: RuntimeLimits, b: RuntimeLimits) {
    && a.maxEncodedBytes <= b.maxEncodedBytes
    && a.maxDecodedBytes <= b.maxDecodedBytes
    && a.maxJsonNestingDepth <= b.maxJsonNestingDepth
    && a.maxOperations <= b.maxOperations
    && a.maxComponents <= b.maxComponents
    && a.maxComponentsPerEntity <= b.maxComponentsPerEntity
    && a.maxTextBytes <= b.maxTextBytes
    && a.maxDiagnostics <= b.maxDiagnostics
    && a.maxQueueCapacity <= b.maxQueueCapacity
    && a.maxImaginationEntities <= b.maxImaginationEntities
    && a.maxImaginationRelations <= b.maxImaginationRelations
    && a.maxImaginationConstraints <= b.maxImaginationConstraints
    && a.maxQueryEntities <= b.maxQueryEntities
    && a.maxObservationWidth <= b.maxObservationWidth
    && a.maxObservationHeight <= b.maxObservationHeight
    && a.maxObservationPixels <= b.maxObservationPixels
  }

  /** `compilation_limits_fit`. */
  predicate CompilationFit(a: CompilationLimits, b: CompilationLimits) {
    && a.maxEncodedBytes <= b.maxEncodedBytes
    && a.maxDecodedBytes <= b.maxDecodedBytes
    && a.maxJsonNestingDepth <= b.maxJsonNestingDepth
    && a.maxTextBytes <= b.maxTextBytes
    && a.maxDecisions <= b.maxDecisions
    && a.maxUnresolvedConstraints <= b.maxUnresolvedConstraints
    && RuntimeFit(a.patchLimits, b.patchLimits)
  }
}
