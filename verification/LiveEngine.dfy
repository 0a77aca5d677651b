/** The engine as the source keeps it: a recorded world and a renderer updated in place (engine.rs, recorded.rs). */
module LiveEngine {
  import opened Machine
  import opened ReplayLog
  import opened Recovery

  class CogniformEngine<S, C> {
    const platform: Platform<S, C>
    const bounds: Bounds
    var world: World<S, C>
    var log: seq<Entry<C>>
    var logBytes: nat
    var nextFrame: nat
    var rendererRevision: nat

    ghost function View(): Engine<S, C> reads this { Engine(world, log, nextFrame, rendererRevision) }

    ghost predicate Valid() reads this { Inv(platform, bounds, View()) && logBytes == LogBytes(platform, log) }

    constructor (platform: Platform<S, C>, bounds: Bounds)
      requires HEADER_BYTES <= bounds.maxLogBytes
      ensures Valid() && View() == NewEngine(platform) && this.platform == platform && this.bounds == bounds
    {
      this.platform, this.bounds := platform, bounds;
      world, log, logBytes, nextFrame, rendererRevision := Empty(platform), [], HEADER_BYTES, 1, 0;
    }

    /** Records exactly the newly accepted patches, each under the frame that will first show it. */
    method Apply(patch: Patch<C>, extraction: Extraction) returns (r: Option<EngineError>)
      requires Valid()
      modifies this
      ensures Valid() && (View(), r) == ApplyPatch(platform, bounds, old(View()), patch, extraction)
    {
      ApplyKeepsInv(platform, bounds, View(), patch, extraction);
      var recorded := Record(patch);
      if recorded.Err? { return Some(recorded.error); }
      if !recorded.value { return None; }
      r := HandOver(extraction);
    }

    /** `RecordedWorld::apply_patch`: whether a new entry was recorded. */
    method Record(patch: Patch<C>) returns (r: Result<bool, EngineError>)
      requires logBytes == LogBytes(platform, log)
      modifies this`world, this`log, this`logBytes
      ensures logBytes == LogBytes(platform, log)
      ensures match RecordPatch(platform, bounds, old(View()), patch)
        case Err(error) => r == Err(error) && View() == old(View())
        case Ok(None) => r == Ok(false) && View() == old(View())
        case Ok(Some(t)) => r == Ok(true) && View() == t
    {
      if nextFrame == 0 { return Err(FrameIdOverflow); }
      if patch.key in world.records {
        if !platform.valid(patch) { return Err(PatchRejected); }
        if world.records[patch.key].transaction == patch.transaction { return Ok(false); }
        return Err(KeyConflict);
      }
      if !platform.valid(patch) || !platform.encodes(patch) { return Err(PatchNotEncoded); }
      if |log| >= bounds.maxEntries { return Err(EntryCapacityExceeded); }
      var entryBytes := EntryBytes(platform, patch);
      if entryBytes > bounds.maxEntryBytes { return Err(EntrySizeExceeded); }
      if logBytes + entryBytes > bounds.maxLogBytes { return Err(LogSizeExceeded); }
      r := Append(patch);
    }

    /** Applies a patch that passed every check of the log, and appends its entry. */
    method Append(patch: Patch<C>) returns (r: Result<bool, EngineError>)
      requires logBytes == LogBytes(platform, log)
      modifies this`world, this`log, this`logBytes
      ensures logBytes == LogBytes(platform, log)
      ensures match WorldApply(platform, bounds, old(world), patch)
        case None => r == Err(PatchRejected) && View() == old(View())
        case Some(w) =>
          && r == Ok(true) && world == w
          && log == old(log) + [MakeEntry(platform, old(log), patch, nextFrame, w.scene)]
    {
      var applied := WorldApply(platform, bounds, world, patch);
      if applied.None? { return Err(PatchRejected); }
      var entry := MakeEntry(platform, log, patch, nextFrame, applied.value.scene);
      assert Front(log + [entry]) == log;
      world, log, logBytes := applied.value, log + [entry], logBytes + EntryBytes(platform, patch);
      return Ok(true);
    }

    method HandOver(extraction: Extraction) returns (r: Option<EngineError>)
      modifies this`world, this`rendererRevision
      ensures (View(), r) == Extract(old(View()), extraction)
    {
      if extraction.NotTaken? { return Some(ExtractionFailed); }
      world := world.(pending := {});
      if extraction.NotApplied? { return Some(ExtractionFailed); }
      rendererRevision := world.revision;
      return None;
    }

    /** Issues the next frame identity once, and stops for good after the last. */
    method Submit(ready: bool) returns (r: Result<nat, EngineError>)
      requires Valid()
      modifies this`nextFrame
      ensures Valid() && (View(), r) == SubmitScene(old(View()), ready)
      ensures r.Ok? ==> nextFrame == 0 || r.value < nextFrame
    {
      if !ready { return Err(RendererUnavailable); }
      if nextFrame == 0 { return Err(FrameIdOverflow); }
      var frame := nextFrame;
      nextFrame := AfterFrame(frame);
      return Ok(frame);
    }

    /** A point at any retained revision; it passes every check a restore makes before the replay. */
    method CaptureAt(revision: nat) returns (r: Result<Point<C>, EngineError>)
      requires Valid()
      ensures r == PointAt(View(), revision)
      ensures r.Ok? <==> revision <= world.revision && nextFrame != 0
      ensures r.Ok? ==> Loads(platform, bounds, r.value.entries)
      ensures r.Ok? ==> ValidateRecoveryFrame(r.value.entries, r.value.nextFrame).None?
    {
      if revision > |log| { return Err(RevisionNotRetained(revision, |log|)); }
      if nextFrame == 0 { return Err(FrameIdOverflow); }
      PointsPassChecks(platform, bounds, View(), revision);
      return Ok(Point(log[..revision], nextFrame));
    }
  }
}
