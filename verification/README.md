# Cogniform: verified models of the deterministic core

Cogniform is built from bounded, deterministic state machines around a pure compiler. This project models that core in
Dafny and proves what its parts promise together:

- **Imagination compiler.** Entities, relations and constraints become one normalized patch or a list of unresolved
  items. The accept condition is exact, the memoised placement recursion equals an order-independent definition, the
  patch runs against the scene it was compiled for, every relation holds of what it creates, every report entry is
  accounted for by the request, and it is known exactly when the derived limits admit and let
  encode the compiler's reports, down to the bytes of their JSON.
- **Command gateway.** Over every run, each submission is answered exactly as the state demands, each idempotency key is applied at most once and then always answered from the
  record; queued commands keep their slots; counters are exact.
- **Observation queue.** A two-thread permit protocol over two bounded channels, for every interleaving and for a worker
  that dies at any point.
- **Frame codec and stdio session.** Header-first framing over streams that chunk, interrupt and fail; a half-duplex
  session judged by an independent monitor, with an exact cause for every result.
- **Recovery.** Frame identities along branches of restores, forks and reverts; replay of a hash-chained log; exactly which
  recovery points are restored.
- **Assets.** Accessor layouts, the tangent work budget, and the asset store's byte accounting.
- **Limits and nesting.** Limit negotiation as a meet semilattice; the JSON nesting scanner against the JSON tree.

Conventions. A 32-bit float is its bit pattern; addition, multiplication, the digits a float is printed with, SHA-256,
GPU and decoder outcomes are function parameters, so every result holds for all of them. Integers are unbounded and
each width is written out where it matters; a chain of saturating additions is written as the saturated exact sum. An
object the source updates in place is a class; a pure function of the same name or a value type specifies it, and lemmas
are about that specification.

## Where the code and its promise part

Each of these is proved, with a concrete input and the exact condition.

- An admitted imagination with more than 2^30 - 1 entities compiles to a patch the same limits refuse, because admission
  estimates components with a saturating 32-bit product. `CompiledPatch.PatchAdmittedIff` gives the condition and
  `ComponentOverflow.AdmittedButRefused` the input.
- The limits derived for reports do not cover every problem report. Admission charges for at most 2^32 - 1 constraints,
  so a request with 2^33 violated ones is admitted under limits whose derived report size is too small.
  `CompiledReport.ProblemsAdmittedIff` gives the condition and shows that 32-bit counts suffice;
  `ReportOverflow.AdmittedButUnreportable` gives the input. Its required entities are all different, so positions that
  saturate in the source merge no entries.
- The derived encoded size does not cover every report with a patch. It allows 768 bytes for the decisions about an
  entity, but an entity that leaves everything to the compiler takes at least 869 with its create operation, and
  admission never looks at `max_encoded_bytes`. `EncodedReports.SuccessEncodesIff` gives the exact condition, written
  over the request, its final transforms and which preferred identities were kept. A compilable request that itself
  fits the encoded size is safe (`EncodedReports.SuccessFits64`). `EncodingOverflow.AdmittedButUnencodable` gives 32
  entities and limits where the compiler called directly refuses its own report. Problem reports have the condition
  `EncodedReports.ProblemEncodesIff` and fit whenever four decisions for each entity, the relations and the constraints
  can each be counted in 32 bits (`EncodedReports.ProblemFits64`).
- A recovery point that an engine has just produced can fail to restore. The live engine drains pending render changes
  after every patch, but a replay drains nothing between entries, so the whole history must fit
  `max_pending_render_changes` at once. `ReplayLog.ReplayIff` and `Recovery.RestoreIff` give the condition,
  `SceneReplay.CreatedRestoresIff` a history of `n` creations for every configuration, hash and size function, and
  `SceneReplay.ProducedPointCanFailToRestore` two patches that create one entity each.
- The nesting scanner measures depth exactly for all texts if and only if its limit is below 65535
  (`NestingScanner.ExactIffBelowMaximum`); at 65535 it refuses nothing.
- Packed normalized texture coordinates are accepted although their elements miss the four-byte boundaries inside the
  buffer view that section 3.6.2.4 of the glTF 2.0 specification asks of vertex attributes
  (`Accessors.FourByteAlignedIff`, `Accessors.PackedTexcoordsNotAligned`). Alignment to the component size always holds.

## Model

| member | source | states |
|---|---|---|
| `Compiler.Compile` | crates/cogniform-compiler/src/compiler.rs:95-157 | every outcome is explained: a patch exactly when the request is `Compilable` in the scene, otherwise a non-empty unresolved list; each error has its exact cause; under derived limits a report is refused only for its size, only with problems, and only when relations or constraints exceed 32-bit counts; its encoding is refused iff the size that request and scene determine exceeds the derived one, which takes a compilable request that itself exceeds the encoded size, or another with 4 x entities, relations or constraints beyond 32 bits, or a report longer than 64 bits can count |
| `Compiler.Publish` | crates/cogniform-compiler/src/compiler.rs:136-156 | a returned report passed patch validation, its limits and its encoding; a refused one failed the check it is refused for |
| `Compiler.Report` | crates/cogniform-compiler/src/compiler.rs:110-156 | from planned entities the report is the success report of the finished plans if compilable, else the sorted, deduplicated problems |
| `Compiler.ReportOutcome` | crates/cogniform-compiler/src/compiler.rs:240-266 | patch present iff compilable iff nothing unresolved; under derived limits a success report is admitted iff four components per entity fit 32 bits, and a problem report iff its size fits, which it does whenever relations and constraints each fit 32 bits |
| `Compiler.ReportEncodes` | crates/cogniform-compiler/src/compiler.rs:240-253 | under derived limits the report of a request can be encoded iff the size that request and scene determine fits |
| `Compiler.ReportFits64` | crates/cogniform-compilation/src/limits.rs:46-91 | that size fits iff 64 bits can count it, for a compilable request that itself fits the encoded size and for any other whose three counts each fit 32 bits |
| `ReportMeaning.ReportExplains` | crates/cogniform-compiler/src/compiler.rs:110-156 | the decisions of a report are exactly the choices made for entities and, with a patch, one for each relation |
| `ReportMeaning.ReportLists` | crates/cogniform-compiler/src/compiler.rs:320-652 | the unresolved entries of a report are exactly one for each violated constraint and each failing relation |
| `ReportMeaning.ReportCarriesRequest` | crates/cogniform-compiler/src/compiler.rs:140-156 | a report names its request and scene, and carries the patch of the final plans exactly when it compiles |
| `Acceptance.NoProblemsIffCompilable` | crates/cogniform-compiler/src/compiler.rs:320-652 | nothing is reported iff all constraints hold, every relation joins two distinct declared entities, subjects are unique, no anchor is parented, both graphs are acyclic and every placement is unrotated and finite |
| `Acceptance.ProblemsShape` | crates/cogniform-compiler/src/compiler.rs:320-351 | at most one entry per constraint and per relation, all distinct, legally shaped and bounded in text by the request |
| `Diagnosis.Diagnose` | crates/cogniform-compiler/src/compiler.rs:110-124 | all passes in place report exactly the problems, and on success every plan carries its relation and final transform |
| `Diagnosis.StaticPasses` | crates/cogniform-compiler/src/compiler.rs:320-559 | the passes before placement report what the static specification says and attach every relation to its owner |
| `Planning.PlanEntities` | crates/cogniform-compiler/src/compiler.rs:159-201 | plans all entities in key order, or stops at the first with no free identity |
| `Planning.DeriveEntityId` | crates/cogniform-compiler/src/compiler.rs:203-237 | finds the first usable candidate among the allowed attempts |
| `Planning.FirstFreeIdIsFree` | crates/cogniform-compiler/src/compiler.rs:203-237 | a derived identity is non-zero and not taken |
| `Planning.FirstFreeIdExactly` | crates/cogniform-compiler/src/compiler.rs:203-237 | the derived identity is the candidate of the first usable attempt; none only if no attempt is usable |
| `Planning.PlannedIdExactly` | crates/cogniform-compiler/src/compiler.rs:159-201 | a preferred identity that is still free is kept, otherwise the first usable candidate is taken |
| `Planning.EntityDecisionsExactly` | crates/cogniform-compiler/src/compiler.rs:268-305 | exactly the generated, substituted and defaulted values of an entity are explained |
| `Planning.PlannedIdsFresh` | crates/cogniform-compiler/src/compiler.rs:159-237 | planned identities are pairwise distinct and absent from the scene |
| `Planning.KeyOrderStrict` | crates/cogniform-compiler/src/compiler.rs:159-175 | planning order is a strictly increasing rearrangement of the declared entities |
| `Relations.AssignRelations` | crates/cogniform-compiler/src/compiler.rs:353-424 | every plan is attached to the first relation that owns it, and every other relation is reported |
| `Relations.RejectParentedAnchors` | crates/cogniform-compiler/src/compiler.rs:502-521 | exactly the placements whose anchor is parented are reported |
| `Relations.MarkRelationCycles` | crates/cogniform-compiler/src/compiler.rs:523-559 | one issue for each plan on a cycle, and no other |
| `CycleMarker.MarkCycles` | crates/cogniform-compiler/src/compiler.rs:523-559 | on any partial functional graph each position on a cycle is listed exactly once, and no tail into a cycle is |
| `CycleMarker.FollowEdges` | crates/cogniform-compiler/src/compiler.rs:530-556 | one walk terminates and returns the cycle it closes, if its start is on it |
| `Issues.PassesExact` | crates/cogniform-compiler/src/compiler.rs:353-559 | the reported entries of all static passes are exactly the static issues of the request |
| `Issues.CycleIssuesExact` | crates/cogniform-compiler/src/compiler.rs:469-500 | a cycle issue is reported for a relation iff its subject is on a cycle of that graph |
| `Issues.ConstraintIssuesExact` | crates/cogniform-compiler/src/compiler.rs:320-351 | exactly the violated constraints are reported: missing for a required entity the scene lacks, present for an excluded one it has |
| `Issues.StaticCodeExactly` | crates/cogniform-compiler/src/compiler.rs:353-559 | exactly when a relation gets each code: unknown end, self, conflict with an earlier subject or a parented anchor, hierarchy cycle, placement cycle |
| `Placements.ResolvePlacement` | crates/cogniform-compiler/src/compiler.rs:589-652 | terminates by height, never moves a settled plan, its outcome is the one the order-independent definition gives, and a plan it settles stands at its exact offset beside its settled anchor or keeps its declared transform |
| `Placements.ResolvePlacements` | crates/cogniform-compiler/src/compiler.rs:561-587 | whatever the order, every plan is reported or ends level with its anchor on two axes, at the exact single-precision offset on the third, rotated and scaled as declared |
| `Placements.PlacedAreOutcomes` | crates/cogniform-compiler/src/compiler.rs:561-652 | the recursive definition over the request satisfies the equations of the memoised recursion |
| `Placements.FailureSubjectPlaced` | crates/cogniform-compiler/src/compiler.rs:654-671 | a placement failure names a relation of the request and the entity it places |
| `CompiledScene.RelationHolds` | crates/cogniform-compiler/src/compiler.rs:589-652 | in every compiled request each spatial relation holds of the create operations: anchor and subject are unrotated, two coordinates are the anchor's, the third is anchor position + half anchor + distance + half subject in that order, normalised and finite, and rotation and scale are as declared |
| `CompiledScene.UnplacedKeepsTransform` | crates/cogniform-compiler/src/compiler.rs:589-600 | an entity no spatial relation places is created with its whole declared transform, or the identity |
| `CompiledScene.RelationPlaces` | crates/cogniform-compiler/src/compiler.rs:605-652 | the outcome of each spatial relation from that of its anchor: an anchor failure is passed on, a rotated end and an infinite offset each get their own code with this relation named |
| `CompiledScene.CompiledCreates` | crates/cogniform-compiler/src/compiler.rs:706-718 | operation x creates entity x of the key order with its name or key, its computed transform, its primitive and its material, or grey 0.7 with metallic 0 and roughness 0.8 |
| `CompiledScene.PatchCarriesRequest` | crates/cogniform-compiler/src/compiler.rs:732-742 | transaction, idempotency key, base revision, delivery and budget are the request's own |
| `CompiledScene.ParentRelationReparents` | crates/cogniform-compiler/src/compiler.rs:719-731 | every parent relation reparents its child to its parent, after all creates |
| `CompiledScene.ReparentHasRelation` | crates/cogniform-compiler/src/compiler.rs:719-731 | every operation after the creates is the reparenting of one parent relation |
| `Emission.AppendRelationDecisions` | crates/cogniform-compiler/src/compiler.rs:673-697 | one decision for each applied relation, in plan order |
| `Emission.BuildPatch` | crates/cogniform-compiler/src/compiler.rs:699-743 | all creates in plan order, then one reparent for each parented plan |
| `CompiledPatch.PatchSizes` | crates/cogniform-compiler/src/compiler.rs:699-743 | operations, components, text and logical bytes of the patch are exactly what admission estimated |
| `CompiledPatch.PatchAdmittedIff` | crates/cogniform-protocol/src/imagination.rs:279-327 | the patch of an admitted request passes patch validation iff four times the entity count fits 32 bits |
| `ComponentOverflow.AdmittedButRefused` | crates/cogniform-protocol/src/imagination.rs:309-318 | a request of 2^30 entities with printable keys is admitted, compiles, and its patch is refused |
| `CompiledReport.SuccessAdmittedIff` | crates/cogniform-compilation/src/limits.rs:46-91 | derived limits admit the success report of an admitted request iff four components per entity fit 32 bits |
| `CompiledReport.ProblemsAdmittedIff` | crates/cogniform-compilation/src/limits.rs:46-91 | derived limits admit the problem report of an admitted request iff its logical size fits the derived limit; always when relations and constraints each fit 32 bits |
| `CompiledReport.ProblemBytesExact` | crates/cogniform-compilation/src/result.rs:287-299 | that size is 35 bytes, 34 for each violated constraint, 18 and both keys for each failing relation, and 24 or 8 and the key for each identity or default decision |
| `CompiledReport.BoundedIsAdmittedIff` | crates/cogniform-compilation/src/result.rs:201-271 | of all checks on a report the compiler can build, only the logical size can fail |
| `CompiledReport.PlanDecisionsBytes` | crates/cogniform-compilation/src/result.rs:407-412 | the decisions about an entity take at most 48 bytes beyond their text, because no decision carries both an index and an identity |
| `CompiledReport.ProblemsBytes` | crates/cogniform-compilation/src/result.rs:414-421 | a relation entry takes 18 bytes beyond its text and a constraint entry 34 |
| `ReportOverflow.AdmittedButUnreportable` | crates/cogniform-compilation/src/limits.rs:46-91 | an admitted request with 2^33 missing required entities whose problem report the derived limits refuse |
| `JsonText.EscapedBound` | crates/cogniform-compilation/src/limits.rs:16 | escaping never shortens a text and makes it at most six times as long |
| `ReportJson.ResultNests` | crates/cogniform-compilation/src/limits.rs:20 | the JSON of every report is well formed and nested at most nine deep |
| `ReportJson.ResultTakes` | crates/cogniform-compilation/src/result.rs:155-168 | the JSON of a report takes exactly the bytes that its fields, codes, identities, digits, escapes and floats add up to |
| `RequestJson.RequestWritten` | crates/cogniform-protocol/src/imagination.rs:147-170 | the same for a request |
| `EncodedReports.RequestEncodesIff` | crates/cogniform-protocol/src/codec.rs:9-19 | a request can itself be encoded under the runtime limits iff it is admitted and its exact size fits |
| `ReportEncoding.EncodeLine` | crates/cogniform-compilation/src/codec.rs:43-57 | however the serializer chunks its output, the line is returned iff its size and its nesting fit |
| `ReportEncoding.EncodesIffFits` | crates/cogniform-compilation/src/limits.rs:46-91 | under derived limits the nesting check never fails, so a report can be encoded iff its exact size fits |
| `EncodedSizes.DecisionWithin` | crates/cogniform-compilation/src/limits.rs:17 | a written decision takes at most 192 bytes and six for each byte of its key |
| `EncodedSizes.UnresolvedWithin` | crates/cogniform-compilation/src/limits.rs:18 | a written unresolved entry takes at most 256 bytes and six for each byte of its keys |
| `EncodedSizes.EntityWithin` | crates/cogniform-compiler/src/compiler.rs:268-305 | a create operation and its explanations take at most what the entity takes in the request, four decision allowances, and text |
| `EncodedSizes.RelationWithin` | crates/cogniform-compiler/src/compiler.rs:671-743 | an applied relation, its reparent or its new translation take at most 225 bytes beyond text |
| `EncodedBytes.AppliedTotal` | crates/cogniform-compiler/src/compiler.rs:671-697 | the relation decisions of a compiled request are one for each of its relations, and take what their codes, subjects and positions add up to |
| `EncodedBytes.SuccessExactly` | crates/cogniform-compiler/src/compiler.rs:140-156 | the JSON of a success report takes exactly what the entities, final transforms, parent relations, applied relations and lost identities of the request add up to |
| `EncodedBytes.ProblemExactly` | crates/cogniform-compiler/src/compiler.rs:124-138 | the JSON of a problem report takes exactly what the explanations, violated constraints and failing relations of the request add up to |
| `EncodedReports.SuccessWithinRequest` | crates/cogniform-compilation/src/limits.rs:46-91 | a whole success report takes at most what its request takes, the decision allowances, and 30 bytes for each byte of text |
| `EncodedReports.SuccessEncodesIff` | crates/cogniform-compilation/src/limits.rs:46-91 | a success report can be encoded under the derived limits iff the exact size in terms of its request fits |
| `EncodedReports.SuccessFits64` | crates/cogniform-compilation/src/limits.rs:46-91 | if a compilable request with an admitted patch itself fits the encoded size, that size fits iff 64 bits can count it, even where the derived counts saturate |
| `EncodedReports.ProblemEncodesIff` | crates/cogniform-compilation/src/limits.rs:46-91 | a problem report can be encoded under the derived limits iff the exact size in terms of its request and scene fits |
| `EncodedReports.ProblemFits64` | crates/cogniform-compilation/src/limits.rs:46-91 | if 4 x entities, relations and constraints each fit 32 bits, that size fits iff 64 bits can count it |
| `EncodingOverflow.AdmittedButUnencodable` | crates/cogniform-compilation/src/limits.rs:46-91 | however 32 admitted entities without details are planned, their compiled report is valid and does not fit the derived encoded size |
| `EncodingOverflow.BareCompiles` | crates/cogniform-compiler/src/compiler.rs:203-237 | a hash that gives the 32 keys distinct first candidates compiles that request; `SomeHashSpreads` shows one |
| `CompiledReport.DedupedAreProblems` | crates/cogniform-compiler/src/compiler.rs:124-138 | sorting and deduplicating what was reported gives each problem once in canonical order |
| `CompilationReport.NeighboursDecideOrder` | crates/cogniform-compilation/src/result.rs:302-345 | comparing neighbours decides whether a list is strictly increasing |
| `CompilationReport.DecisionOrder` | crates/cogniform-compilation/src/result.rs:71-76 | canonical comparison of decisions is a total order |
| `CompilationReport.UnresolvedOrder` | crates/cogniform-compilation/src/result.rs:141-149 | canonical comparison of unresolved items is a total order |
| `Protocol.NoBadEntity` | crates/cogniform-protocol/src/imagination.rs:253-274 | the scan for a bad entity passes iff keys are distinct and every entity is valid |
| `Protocol.NoBadOperation` | crates/cogniform-protocol/src/message.rs:277-350 | the scan for a bad operation passes iff every operation is valid |
| `Protocol.PatchAdmits` | crates/cogniform-protocol/src/message.rs:277-350 | a patch is admitted iff every operation is valid and operations, components, text and size are each within what it declares within what is allowed |
| `Protocol.ImaginationAdmits` | crates/cogniform-protocol/src/imagination.rs:190-327 | a request is admitted iff keys are distinct, entities valid, counts budgeted, its own text and size within the limits, and every total of its future patch budgeted |
| `SceneApplication.CompiledPatchRuns` | crates/cogniform-world/src/world.rs:489-531 | with room for the new entities, every operation of a compiled patch succeeds, every state on the way is a forest, and the result is the old scene plus exactly the plans and declared edges |
| `SceneApplication.CompiledPatchAcceptedIff` | crates/cogniform-world/src/world.rs:535-570 | operations and hierarchy check succeed iff entity capacity and hierarchy depth allow it |
| `RenderChanges.CompiledPatchChanges` | crates/cogniform-world/src/world.rs:600-775 | a compiled patch marks exactly the entities it creates for the next extraction |
| `RenderChanges.CompiledPatchFitsIff` | crates/cogniform-world/src/world.rs:535-598 | the world accepts a compiled patch iff entity capacity, hierarchy depth and the pending-change bound allow its new entities and their world transforms compose |
| `RenderCoverage.ChangesCover` | crates/cogniform-world/src/world.rs:600-775 | after any operations every entity that appeared, disappeared or shows other components is marked, and so is everything at or below one whose transform or parent differs |
| `Hierarchy.HierarchyDepths` | crates/cogniform-world/src/world.rs:1093-1135 | succeeds iff the parents form a forest of live entities within the depth bound, with every depth exact |
| `Hierarchy.AssignPathDepths` | crates/cogniform-world/src/world.rs:1137-1161 | the depths written back along a path are exact, or the bound is exceeded |
| `Gateway.LocalGateway.Submit` | crates/cogniform-engine/src/gateway.rs:342-355 | over the states before and after: queued iff the key is new, nothing queued has its supersession key and both capacities have room, and then appended; already queued iff its key and fingerprint are queued; conflict iff its key is queued or completed with another; superseded iff new with a queued target, which alone is replaced and named; replayed field by field; drops and rejections exact; the invariant is kept |
| `Gateway.LocalGateway.ProcessNext` | crates/cogniform-engine/src/gateway.rs:260-299 | pops the front command; a success is recorded under its key and fingerprint, a failure leaves nothing |
| `Gateway.LocalGateway.ConfigureCompilationLimits` | crates/cogniform-engine/src/gateway.rs:213-233 | limits become the given ones iff nothing is queued and they are within policy, and are unchanged otherwise |
| `Gateway.LocalGateway.constructor` | crates/cogniform-engine/src/gateway.rs:191-211 | an accepted configuration starts with the invariant |
| `Gateway.AdmitExactly` | crates/cogniform-engine/src/gateway.rs:493-544 | each answer is given exactly when the key, the supersession key, the fingerprints and the room left demand it, and leaves exactly the state it should |
| `Gateway.AdmitKeepsInv` | crates/cogniform-engine/src/gateway.rs:493-544 | admission keeps keys distinct, supersession keys unique and both capacities |
| `Gateway.ProcessKeepsInv` | crates/cogniform-engine/src/gateway.rs:260-299 | processing keeps queued and completed keys disjoint and within the idempotency capacity |
| `GatewayRuns.RunKeepsInv` | crates/cogniform-engine/src/gateway.rs:260-299 | every reachable state keeps the invariant |
| `GatewayRuns.OfferAnswered` | crates/cogniform-engine/src/gateway.rs:493-544 | every submission of every run is answered exactly as the state it meets demands |
| `GatewayRuns.AppliedAtMostOnce` | crates/cogniform-engine/src/gateway.rs:260-299 | each idempotency key is applied successfully at most once in a whole run |
| `GatewayRuns.SuccessIsReplayed` | crates/cogniform-engine/src/gateway.rs:342-355 | after a success every submission of the key gets the recorded answer or a conflict and changes nothing |
| `GatewayRuns.CompletedStays` | crates/cogniform-engine/src/gateway.rs:260-299 | nothing leaves or changes in the replay cache |
| `GatewayRuns.HoldsItsSlot` | crates/cogniform-engine/src/gateway.rs:493-548 | a command without a supersession key moves forward exactly with pops, and limits do not change while it waits |
| `GatewayRuns.LeavesInOrder` | crates/cogniform-engine/src/gateway.rs:546-548 | the pop after its slot's worth of pops takes exactly that command |
| `GatewayRuns.CountersExact` | crates/cogniform-engine/src/gateway.rs:493-544 | counters equal what happened up to saturation; admitted = queued + completed + failed |
| `GatewayRuns.PressureFollowsDelivery` | crates/cogniform-engine/src/gateway.rs:525-539 | only best-effort work is dropped, only other work is rejected, and only at a full capacity |
| `ObservationSlots.SlotTable.TryAcquire` | crates/cogniform-engine/src/observation.rs:420-453 | succeeds iff below capacity, with a fresh identity and one new record |
| `ObservationSlots.SlotTable.Drop` | crates/cogniform-engine/src/observation.rs:487-498 | removes the record of that permit and no other |
| `ObservationSlots.ReleaseAccounts` | crates/cogniform-engine/src/observation.rs:487-498 | a live permit always finds its record, so dropping it cannot panic |
| `ObservationSlots.AcquireAccounts` | crates/cogniform-engine/src/observation.rs:439-453 | a new permit is none of the live ones and adds exactly one record |
| `ObservationQueue.NextKeepsInv` | crates/cogniform-engine/src/observation.rs:352-376 | every step of either thread keeps the accounting exact, each step of the worker's death included |
| `ObservationQueue.ReachableKeepsInv` | crates/cogniform-engine/src/observation.rs:352-498 | in every state of every interleaving the slots account for exactly the live permits, with no fault |
| `ObservationQueue.CountIsExact` | crates/cogniform-engine/src/observation.rs:410-418 | in use = records = held + queued + active + completed + delivering, within capacity |
| `ObservationQueue.ChannelNeverFull` | crates/cogniform-engine/src/observation.rs:199-217 | after a reservation the full branch is unreachable |
| `ObservationQueue.SendNeverBlocks` | crates/cogniform-engine/src/observation.rs:352-376 | the worker's send always finds room |
| `ObservationQueue.RunInOrder` | crates/cogniform-engine/src/observation.rs:199-251 | in every run accepted jobs are the delivered, the completed, the active, those a dying worker lost and the queued ones, in that order |
| `ObservationQueue.DeliveredInSubmissionOrder` | crates/cogniform-engine/src/observation.rs:232-251 | the k-th delivery is for the k-th accepted job |
| `ObservationQueue.NothingLostWhileRunning` | crates/cogniform-engine/src/observation.rs:352-376 | while the worker runs, accepted jobs are the delivered ones followed by those in flight |
| `ObservationQueue.TrySubmitAdmitsIff` | crates/cogniform-engine/src/observation.rs:166-189 | admission succeeds iff the request matches its frame, a slot is free and the worker has not hung up |
| `ObservationQueue.TrySubmitRefusedExactly` | crates/cogniform-engine/src/observation.rs:166-217 | exactly when a submission is refused for its size, camera, revision, lack of a slot or a gone worker |
| `ObservationQueue.DeliveredExactly` | crates/cogniform-engine/src/observation.rs:254-311 | a matching job is answered iff readback succeeded, the caller is not behind and sizes fit; kind, quality, camera, dimensions, identity, frame and staleness of the answer are exact; a readback failure and a caller that is behind are each named |
| `ObservationQueue.RunAnswersItsRequests` | crates/cogniform-engine/src/observation.rs:166-311 | in every run of matching submissions the k-th delivery answers the k-th accepted request, in full and in its own terms exactly when it can be |
| `FrameCodec.EncodeSections` | crates/cogniform-local-transport/src/codec.rs:174-203 | refuses by layout then lengths, else yields the frame with its digest in place |
| `FrameCodec.HeaderReads` | crates/cogniform-local-transport/src/codec.rs:205-233 | a written header parses back to its own fields |
| `FrameCodec.HeaderIsCanonical` | crates/cogniform-local-transport/src/codec.rs:205-233 | an accepted header is the only header with its fields |
| `FrameCodec.HeaderAcceptedIff` | crates/cogniform-local-transport/src/codec.rs:205-281 | a header is accepted iff magic, version, kind, reserved byte, correlation and sections are well formed and control, bulk and frame length are within their limits |
| `FrameCodec.DecodesIff` | crates/cogniform-local-transport/src/codec.rs:81-126 | bytes are accepted iff they are one well-headed frame of exactly the declared length with the digest of everything else and a decodable observation if they say so |
| `FrameCodec.SectionsRoundTrip` | crates/cogniform-local-transport/src/codec.rs:81-126 | decoding encoded sections decodes their own body |
| `FrameCodec.ControlRoundTrip` | crates/cogniform-local-transport/src/codec.rs:46-126 | an encoded control frame decodes to itself |
| `FrameCodec.ObservationRoundTrip` | crates/cogniform-local-transport/src/codec.rs:46-126 | an observation frame round trips iff its value codec does |
| `FrameCodec.ControlReencodes` | crates/cogniform-local-transport/src/codec.rs:81-126 | any bytes accepted as a control frame encode back to themselves |
| `FrameCodec.ConcatenationReadsBack` | crates/cogniform-local-transport/src/codec.rs:135-158 | concatenated control frames read back in order, then the stream ends cleanly |
| `FrameStream.ReadOneFrame` | crates/cogniform-local-transport/src/codec.rs:135-158 | for any chunking and interruptions the result is the decoding of the declared prefix, and exactly that prefix is consumed; any frame read had a well-formed header with all lengths within limits |
| `FrameStream.ReadHeaderBytes` | crates/cogniform-local-transport/src/codec.rs:380-406 | nothing is a clean end, part of a header is an error, else exactly 68 bytes |
| `FrameStream.ReadSection` | crates/cogniform-local-transport/src/codec.rs:408-435 | the declared bytes, or a truncation that reports how many there were |
| `FrameStream.WriteAll` | crates/cogniform-local-transport/src/codec.rs:437-458 | success wrote everything; failure wrote a prefix and nothing else |
| `FrameStream.WrittenFrameIsRead` | crates/cogniform-local-transport/src/codec.rs:165-172 | a written control frame is what the peer reads first, leaving the rest |
| `StdioSession.Session.Serve` | apps/cogniform-cli/src/serve_stdio.rs:75-131 | for any driver, writer and clock the result is exact: none iff the stream was empty or the last answer was sound, delivered and closed; each end of input, rejected frame, startup outcome, overdue work, failed write or flush, fatal answer and broken answer gives its own error and no other does; the trace conforms to the monitor; output stays unwritten only on a deadline, a broken executor or a failed output |
| `StdioSession.Session.DriveToTerminal` | apps/cogniform-cli/src/serve_stdio.rs:133-173 | times out iff the deadline, a full timeout after it began, was reached or cannot be represented; success only with nothing live; at most ceil(timeout / poll) advances |
| `StdioSession.CeilDivIsLeast` | apps/cogniform-cli/src/serve_stdio.rs:145-172 | the bound on advances is the least number of poll intervals that cover the timeout |
| `StdioSession.Session.WriteOutput` | apps/cogniform-cli/src/serve_stdio.rs:220-232 | each frame is written and flushed before the next |
| `StdioSession.Session.Exchange` | apps/cogniform-cli/src/serve_stdio.rs:100-109 | a driver call adopts its configuration first, then delivers all output, then validates the status; it succeeds iff the answer is sound, in time and delivered, and each failure is exact |
| `StdioSession.LedgerIsExact` | apps/cogniform-cli/src/serve_stdio.rs:75-131 | in a conforming trace produced = written + owed and read = handled + waiting |
| `StdioSession.ReadMeansDelivered` | apps/cogniform-cli/src/serve_stdio.rs:96-130 | at every read all output so far was written in order and flushed, every frame was handled, nothing is live or fatal |
| `StdioSession.OnlyWritingAfterFatal` | apps/cogniform-cli/src/serve_stdio.rs:102-106 | after a fatal judgement a conforming trace only writes and flushes: no read, no driver call, no other judgement |
| `StdioSession.JudgedBeforeNext` | apps/cogniform-cli/src/serve_stdio.rs:100-122 | between a driver call and the next read or driver call its output was judged and not fatal |
| `StdioSession.ValidClosedIsIdle` | apps/cogniform-cli/src/serve_stdio.rs:175-201 | a validated closed status is idle, so closing succeeds |
| `ReplayLog.ReplayIff` | crates/cogniform-replay/src/log.rs:527-566 | replay of a genuine log rebuilds scene, revision and records exactly, and succeeds iff everything it touched fits the pending-change bound |
| `ReplayLog.GenuineLoads` | crates/cogniform-replay/src/log.rs:453-524 | a genuine log loads without an unverified tail |
| `ReplayLog.GenuineTake` | crates/cogniform-replay/src/log.rs:419-450 | every prefix of a genuine log is genuine |
| `ReplayLog.LoadsIff` | crates/cogniform-replay/src/log.rs:453-524 | a stream loads in full iff numbers and revisions count from one, each entry names the hash and scene before it and carries its own hash, and everything fits |
| `ReplayLog.ReplayedIsGenuine` | crates/cogniform-replay/src/log.rs:527-566 | what loads and replays was written by a recorded world |
| `Recovery.AppendIsGenuine` | crates/cogniform-replay/src/recorded.rs:74-145 | recording an accepted patch extends a genuine log |
| `Recovery.ApplyKeepsInv` | crates/cogniform-engine/src/engine.rs:219-236 | applying keeps the log genuine, the world equal to it, and recorded frames not ahead of the next |
| `LiveEngine.CogniformEngine.Apply` | crates/cogniform-engine/src/engine.rs:219-236 | in place, the engine becomes what the specification says and keeps the branch invariant |
| `LiveEngine.CogniformEngine.Record` | crates/cogniform-replay/src/recorded.rs:74-145 | checks in order, then one entry appended with the running byte count exact, or nothing changed |
| `Recovery.ApplyRecords` | crates/cogniform-replay/src/recorded.rs:74-145 | one entry for a newly accepted patch, under the next frame; a replayed key or a refusal leaves the engine as it was |
| `Recovery.NewKeyExactly` | crates/cogniform-replay/src/recorded.rs:74-145 | exactly when a patch with a new key is refused for its encoding, the entry count, its size, the log size, the world or the extraction |
| `Recovery.KnownKeyExactly` | crates/cogniform-replay/src/recorded.rs:74-145 | a known key changes nothing and is answered iff the transaction is the recorded one, else a conflict |
| `LiveEngine.CogniformEngine.Submit` | crates/cogniform-renderer/src/renderer.rs:425-427 | issues the next frame identity once and none after the last |
| `LiveEngine.CogniformEngine.CaptureAt` | crates/cogniform-engine/src/engine.rs:262-275 | a point exists iff the revision is retained and a frame identity remains, and it passes the checks before the replay |
| `Recovery.PointsPassChecks` | crates/cogniform-engine/src/engine.rs:249-275 | every recovery point an engine produces passes the load and frame checks |
| `Recovery.RestoreIff` | crates/cogniform-engine/src/engine.rs:129-171 | restoring a produced point works iff its history fits the pending-change bound and the renderer starts; the result is the recorded state with the same next frame |
| `Recovery.RestoreExactly` | crates/cogniform-engine/src/engine.rs:129-171 | any point, produced or not: unverified iff its entries are not linked; behind iff a recorded frame is past the next one, with the largest named; replay failure iff no recorded world wrote it or its history does not fit; otherwise restored iff the renderer starts |
| `Recovery.RestoredIsSound` | crates/cogniform-engine/src/engine.rs:379-394 | whatever point is restored, every entry is numbered, linked, hashed and no later than the next frame, and the engine keeps the invariant |
| `Recovery.BranchKeepsInv` | crates/cogniform-engine/src/engine.rs:219-275 | every engine along applies, renders, restores and forks keeps the invariant |
| `Recovery.FramesNeverReissued` | crates/cogniform-engine/src/engine.rs:249-275 | along any branch issued frame identities strictly increase, so none is issued twice |
| `Recovery.OverflowingHistoryFails` | crates/cogniform-engine/src/engine.rs:137-150 | a history that touched too much fails in the replay after every earlier check passed |
| `SceneReplay.RecordedAcceptsIff` | crates/cogniform-world/src/world.rs:398-446 | over real scenes a new key is accepted iff the patch is valid, made for the current revision, accepted by the scene, and there is room for its record |
| `SceneReplay.CreationAcceptedIff` | crates/cogniform-world/src/world.rs:570-582 | one more creation is accepted iff fewer changes are pending than allowed |
| `SceneReplay.CreatedRestoresIff` | crates/cogniform-replay/src/log.rs:527-566 | for every configuration, hash and size function with room for n creations, the engine applies and renders all of them and its recovery point restores iff n changes may be pending at once |
| `SceneReplay.ProducedPointCanFailToRestore` | crates/cogniform-replay/src/log.rs:527-566 | two accepted creations under a bound of one pending change give an engine at revision two whose recovery point cannot be restored |
| `LocalService.RestoreServiceIff` | crates/cogniform-engine/src/service.rs:185-218 | a service restores iff its history fits and the gateway's records still fit beside it |
| `LocalService.Service.RevertToRevision` | crates/cogniform-engine/src/service.rs:478-518 | succeeds iff the target is older and restorable, the service is quiescent and frames remain; then it holds the recorded state and the receipt names both revisions; the current revision and a busy service are refused as such; on failure nothing changes |
| `AssetStore.Store.Enqueue` | crates/cogniform-assets/src/store.rs:82-153 | queues a new verified source once; refusals in order; a known hash or refusal changes nothing; for any limits the totals stay exact iff the true sum fits 64 bits, hence always below the maximum limit |
| `AssetStore.Store.ProcessNext` | crates/cogniform-assets/src/store.rs:162-228 | releases the oldest source and settles its record; for any limits the totals stay exact iff the true decoded sum fits 64 bits |
| `AssetStore.Store.Evict` | crates/cogniform-assets/src/store.rs:316-377 | removes one hash; totals lose exactly what is reported; no subtraction can fail |
| `AssetStore.Retain` | crates/cogniform-assets/src/store.rs:336-354 | keeps the other imports in order and counts exactly what it drops |
| `AssetStore.ProcessedExactly` | crates/cogniform-assets/src/store.rs:162-228 | ready iff decodable content fits, proxy iff a permitted failure fits, otherwise rejected and empty; the record holds exactly that content, or the first reason it was rejected |
| `AssetStore.RefusedExactly` | crates/cogniform-assets/src/store.rs:82-153 | exactly when an import is refused for its size, its hash, the record count, the queue length or the pending bytes |
| `AssetStore.EnqueueKeeps` | crates/cogniform-assets/src/store.rs:108-153 | queueing keeps exact sums, capacities and queued-exactly-once |
| `AssetStore.ProcessKeeps` | crates/cogniform-assets/src/store.rs:162-228 | processing finds its record and keeps capacities and queued-exactly-once; sums stay exact iff they fit 64 bits |
| `AssetStore.EvictKeeps` | crates/cogniform-assets/src/store.rs:316-377 | eviction keeps exact sums, capacities and queued-exactly-once |
| `TangentBudget.Preflight` | crates/cogniform-assets/src/glb.rs:4279-4336 | accepts iff the final sum of cubed multiplicities and the search work are within limits; no checked operation overflows |
| `TangentBudget.SearchWorkIs` | crates/cogniform-assets/src/glb.rs:4312-4336 | the search work is nine for each pair of a face with fewer than three distinct corners and a face with three |
| `TangentBudget.CountGroups` | crates/cogniform-assets/src/glb.rs:4285-4311 | despite early exit the answer is that of the final sum |
| `TangentBudget.WorkStep` | crates/cogniform-assets/src/glb.rs:4288-4306 | one more vertex adds exactly the difference of two cubes |
| `TangentBudget.MultiplicityBound` | crates/cogniform-assets/src/glb.rs:4288-4306 | within the limit no key repeats more than 645 times |
| `Accessors.AcceptedLayouts` | crates/cogniform-assets/src/glb.rs:3668-3740 | every layout returned comes from an accepted range of the named accessor and view |
| `Accessors.AcceptedGeometry` | crates/cogniform-assets/src/glb.rs:4015-4152 | an accepted range has aligned start and stride, a covering stride, and its last element inside view and chunk |
| `Accessors.StrideKeepsAlignment` | crates/cogniform-assets/src/glb.rs:4114-4145 | a given or implied stride keeps the element alignment and covers an element |
| `Accessors.ElementInside` | crates/cogniform-assets/src/glb.rs:4920-4936 | every element lies inside its view and the chunk |
| `Accessors.ElementAligned` | crates/cogniform-assets/src/glb.rs:4073-4079 | every element starts on an element boundary of chunk and view |
| `Accessors.ElementsDisjoint` | crates/cogniform-assets/src/glb.rs:4114-4152 | elements never overlap |
| `Accessors.ReadsSucceed` | crates/cogniform-assets/src/glb.rs:4780-4835 | every component read succeeds inside its element, on a multiple of its size |
| `Accessors.VertexRefusedIff` | crates/cogniform-assets/src/glb.rs:4154-4178 | with accepted layouts every vertex has an index, itself or the 16 or 32 little-endian bits at its place, is refused iff that is past the attribute, and else is that element byte for byte |
| `Accessors.DecodeAttribute` | crates/cogniform-assets/src/glb.rs:4154-4210 | every vertex in order, or the first refusal; component c of vertex k is the bytes of the chunk at start + i * stride + c * width, where i is k or the index value written at its place |
| `Accessors.FourByteAlignedIff` | crates/cogniform-assets/src/glb.rs:3873-3898 | an accepted vertex attribute has all elements on four-byte boundaries of its view iff it is not normalized unsigned texture coordinates, or those start on one and are single, explicitly strided or two bytes per component |
| `Accessors.PackedTexcoordsNotAligned` | crates/cogniform-assets/src/glb.rs:3888-3898 | an accepted accessor whose second element starts at byte two of its view |
| `SessionLimits.IntersectIsMeet` | crates/cogniform-local-session/src/message.rs:80-112 | on valid limits intersection succeeds with the field-wise minimum |
| `SessionLimits.IntersectIsGreatest` | crates/cogniform-local-session/src/message.rs:80-112 | valid limits fit the intersection iff they fit both sides |
| `SessionLimits.IntersectCommutes` | crates/cogniform-local-session/src/message.rs:80-112 | the sides may be swapped |
| `SessionLimits.IntersectAssociates` | crates/cogniform-local-session/src/message.rs:80-112 | the order of joining peers does not matter |
| `SessionLimits.IntersectIdempotent` | crates/cogniform-local-session/src/message.rs:80-112 | limits intersected with themselves are unchanged |
| `SessionLimits.FromConfigIff` | crates/cogniform-local-session/src/message.rs:38-67 | a configuration yields limits iff a frame has a body and the component bounds agree |
| `SessionLimits.ConfigRoundTrip` | crates/cogniform-local-session/src/message.rs:115-127 | valid limits as a frame configuration describe themselves |
| `SessionLimits.NegotiatedLimitsEnforced` | crates/cogniform-local-session/src/codec.rs:269-285 | negotiated limits fit both policies and the codec enforces exactly the negotiated control limit |
| `SessionLimits.IntersectCompilationIsGreatest` | crates/cogniform-local-session/src/message.rs:213-235 | the same for compilation limits |
| `NestingScanner.EnforceNesting` | crates/cogniform-compilation/src/codec.rs:68-99 | the loop accepts iff the automaton does, and reports the first depth over the limit |
| `NestingScanner.ScanValue` | crates/cogniform-local-session/src/codec.rs:308-340 | scanning a written value returns to its depth, or stops iff it is nested too deeply there |
| `NestingScanner.ScanText` | crates/cogniform-compilation/src/codec.rs:72-82 | whatever a string contains, the depth is unchanged after it |
| `NestingScanner.AcceptsIffShallow` | crates/cogniform-compilation/src/codec.rs:68-99 | below the maximum limit a JSON text is accepted iff its tree depth is within the limit |
| `NestingScanner.MaximumAcceptsEverything` | crates/cogniform-compilation/src/codec.rs:87-93 | at the 16-bit maximum nothing is refused |
| `NestingScanner.ExactIffBelowMaximum` | crates/cogniform-compilation/src/codec.rs:68-99 | acceptance equals the depth condition for all JSON texts iff the limit is below the 16-bit maximum |
| `NestingScanner.CollectLine` | crates/cogniform-compilation/src/codec.rs:101-158 | however output is chunked, the line is returned iff it fits with its line feed |

## Left out

- RenderChanges.CompiledPatchFitsIff: whether a world transform composes without overflow is a parameter; the transform generation counts accepted patches, which the 32-bit record capacity keeps far from its 64-bit end, so its overflow is left out.
- Recovery.RestoreIff: the byte form of a log is taken as its entries, so decoding an encoded entry is the identity; wrong bytes are a load failure.
- Accessors.DecodeAttribute: models the vertex loop for one attribute at a time; the checks on decoded float values are left out.
- FrameCodec.ObservationRoundTrip: the observation metadata and payload codecs are parameters.
- StdioSession.Session.DriveToTerminal: needs a positive poll interval and a clock where sleeping lasts at least as long as asked, as the fixed policy and the platform provide.
- Positions of relations and constraints saturate at 2^32 in the source; the model keeps them exact, so beyond 2^32 equal entries that the source would merge are counted apart.
- SceneReplay.RecordedAcceptsIff: the overflow of the 64-bit render-extraction generation, which counts accepted patches, is left out.
- Allocation failure and 32-bit hosts: allocation is taken to succeed. On a 64-bit host all live bytes together stay below 2^64, so the condition under which `AssetStore.Store.Enqueue` keeps its total exact always holds there.
- JSON parsing and canonical re-encoding: the code compares its own output, so the claim is immediate. The shortest digits of a float are a parameter of 3 to 24 bytes, with three for 0.0, 0.7, 0.8 and 1.0.
- Wall-clock ages, latencies and the oldest-age reports of the queues.
- SHA-256, content hashes and fingerprints beyond being functions; no collision freedom is assumed.
- PNG decoding, tangent generation, vector normalisation, texture transforms and all GPU code.
- Decoded component values (sign, normalisation, float checks), the parsing of accessor minimum and maximum bounds, and glTF material extensions.
- The recovery point's envelope bytes, a smaller form of the frame codec.
- Scene queries, command-line handling, profiles, scripts, MCP and the session executor behind the driver interface.
