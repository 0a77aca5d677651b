/** Frame identities and recovery along a branch of engines and services (engine.rs, service.rs). */
module Recovery {
  import opened Machine
  import opened ReplayLog

  /** `nextFrame` is zero once every frame identity has been issued. */
  datatype Engine<S, C> = Engine(world: World<S, C>, log: seq<Entry<C>>, nextFrame: nat, rendererRevision: nat)

  datatype Point<C> = Point(entries: seq<Entry<C>>, nextFrame: nat)

  datatype EngineError =
    | FrameIdOverflow
    | KeyConflict
    | EntryCapacityExceeded
    | EntrySizeExceeded
    | LogSizeExceeded
    | PatchRejected
    | PatchNotEncoded
    | ExtractionFailed
    | RevisionNotRetained(requested: nat, latest: nat)
    | UnverifiedTail
    | FrameBehindReplay(next: nat, recorded: nat)
    | ReplayFailed
    | RendererUnavailable

  /** What became of the extraction after an accepted patch. */
  datatype Extraction = Applied | NotTaken | NotApplied

  function NewEngine<S, C>(p: Platform<S, C>): Engine<S, C> { Engine(Empty(p), [], 1, 0) }

  function AfterFrame(frame: nat): nat { if frame == U64_MAX then 0 else frame + 1 }

  /** Applies a patch and records it if it is newly accepted; `None` answers a known key from its record. */
  function RecordPatch<S, C>(p: Platform<S, C>, b: Bounds, e: Engine<S, C>, patch: Patch<C>)
    : Result<Option<Engine<S, C>>, EngineError>
  {
    if e.nextFrame == 0 then Err(FrameIdOverflow)
    else if patch.key in e.world.records then
      if !p.valid(patch) then Err(PatchRejected)
      else if e.world.records[patch.key].transaction == patch.transaction then Ok(None) else Err(KeyConflict)
    else if !p.valid(patch) || !p.encodes(patch) then Err(PatchNotEncoded)
    else if |e.log| >= b.maxEntries then Err(EntryCapacityExceeded)
    else if EntryBytes(p, patch) > b.maxEntryBytes then Err(EntrySizeExceeded)
    else if LogBytes(p, e.log) + EntryBytes(p, patch) > b.maxLogBytes then Err(LogSizeExceeded)
    else
      var w := WorldApply(p, b, e.world, patch);
      if w.None? then Err(PatchRejected)
      else Ok(Some(e.(world := w.value, log := e.log + [MakeEntry(p, e.log, patch, e.nextFrame, w.value.scene)])))
  }

  /** Hands the pending changes to the renderer. */
  function Extract<S, C>(e: Engine<S, C>, extraction: Extraction): (Engine<S, C>, Option<EngineError>) {
    match extraction
    case Applied => (e.(world := e.world.(pending := {}), rendererRevision := e.world.revision), None)
    case NotTaken => (e, Some(ExtractionFailed))
    case NotApplied => (e.(world := e.world.(pending := {})), Some(ExtractionFailed))
  }

  function ApplyPatch<S, C>(p: Platform<S, C>, b: Bounds, e: Engine<S, C>, patch: Patch<C>, extraction: Extraction)
    : (Engine<S, C>, Option<EngineError>)
  {
    match RecordPatch(p, b, e, patch)
    case Err(error) => (e, Some(error))
    case Ok(None) => (e, None)
    case Ok(Some(t)) => Extract(t, extraction)
  }

  /** Submits one frame, if the renderer can, under the next identity. */
  function SubmitScene<S, C>(e: Engine<S, C>, ready: bool): (Engine<S, C>, Result<nat, EngineError>) {
    if !ready then (e, Err(RendererUnavailable))
    else if e.nextFrame == 0 then (e, Err(FrameIdOverflow))
    else (e.(nextFrame := AfterFrame(e.nextFrame)), Ok(e.nextFrame))
  }

  /** The recovery point at a retained revision; the full point is the one at the latest. */
  function PointAt<S, C>(e: Engine<S, C>, revision: nat): Result<Point<C>, EngineError> {
    if revision > |e.log| then Err(RevisionNotRetained(revision, |e.log|))
    else if e.nextFrame == 0 then Err(FrameIdOverflow)
    else Ok(Point(e.log[..revision], e.nextFrame))
  }

  /** The largest recorded frame of a log. */
  function MaxFrame<C>(log: seq<Entry<C>>): nat {
    if log == [] then 0 else Max(MaxFrame(Front(log)), Last(log).frame)
  }

  function ValidateRecoveryFrame<C>(log: seq<Entry<C>>, next: nat): Option<EngineError> {
    if log != [] && next < MaxFrame(log) then Some(FrameBehindReplay(next, MaxFrame(log))) else None
  }

  function PrepareRestore<S, C>(p: Platform<S, C>, b: Bounds, point: Point<C>): Result<World<S, C>, EngineError> {
    if !Loads(p, b, point.entries) then Err(UnverifiedTail)
    else
      var frame := ValidateRecoveryFrame(point.entries, point.nextFrame);
      if frame.Some? then Err(frame.value)
      else
        var w := Replay(p, b, point.entries);
        if w.None? then Err(ReplayFailed) else Ok(w.value)
  }

  function RestorePrepared<S, C>(point: Point<C>, w: World<S, C>, gpu: bool): Result<Engine<S, C>, EngineError> {
    if !gpu then Err(RendererUnavailable)
    else Ok(Engine(if w.revision != 0 then w.(pending := {}) else w, point.entries, point.nextFrame, w.revision))
  }

  function Restore<S, C>(p: Platform<S, C>, b: Bounds, point: Point<C>, gpu: bool): Result<Engine<S, C>, EngineError> {
    var w := PrepareRestore(p, b, point);
    if w.Err? then Err(w.error) else RestorePrepared(point, w.value, gpu)
  }

  // ----- what every engine on a branch keeps -----

  /** Recorded frames never run ahead of the next identity. */
  ghost predicate FramesBehind<C>(log: seq<Entry<C>>, next: nat) { next != 0 ==> MaxFrame(log) <= next }

  ghost predicate Inv<S, C>(p: Platform<S, C>, b: Bounds, e: Engine<S, C>) {
    && HEADER_BYTES <= b.maxLogBytes
    && Genuine(p, b, e.log)
    && e.world.scene == SceneOf(p, e.log) && e.world.revision == |e.log| && e.world.records == RecordsOf(e.log)
    && FramesBehind(e.log, e.nextFrame) && e.nextFrame <= U64_MAX
  }

  lemma {:induction false} ApplyKeepsInv<S, C>(
    p: Platform<S, C>, b: Bounds, e: Engine<S, C>, patch: Patch<C>, extraction: Extraction)
    requires Inv(p, b, e)
    ensures Inv(p, b, ApplyPatch(p, b, e, patch, extraction).0)
  {
    var next := ApplyPatch(p, b, e, patch, extraction).0;
    if next.log != e.log {
      assert Front(next.log) == e.log;
      GenuineFacts(p, b, e.log);
      AppendIsGenuine(p, b, e.log, patch, e.nextFrame);
    }
  }

  /** An engine records exactly one entry for a newly accepted patch, under its next frame, and nothing otherwise. */
  lemma {:induction false} ApplyRecords<S, C>(
    p: Platform<S, C>, b: Bounds, e: Engine<S, C>, patch: Patch<C>, extraction: Extraction)
    ensures var (t, r) := ApplyPatch(p, b, e, patch, extraction);
      && t.nextFrame == e.nextFrame
      && (r.None? ==> patch.key in t.world.records)
      && (t.log == e.log ==> t == e && (r.None? ==> patch.key in e.world.records))
      && (t.log != e.log ==>
          t.log == e.log + [Last(t.log)] && Last(t.log).patch == patch && Last(t.log).frame == e.nextFrame
          && patch.key !in e.world.records)
  {
  }

  /** Nothing but the world itself can refuse the patch. */
  predicate Recordable<S, C>(p: Platform<S, C>, b: Bounds, e: Engine<S, C>, patch: Patch<C>) {
    && e.nextFrame != 0 && patch.key !in e.world.records && p.valid(patch) && p.encodes(patch)
    && |e.log| < b.maxEntries && EntryBytes(p, patch) <= b.maxEntryBytes
    && LogBytes(p, e.log) + EntryBytes(p, patch) <= b.maxLogBytes
  }

  /** The same transaction under its key answers again; another transaction under it is a conflict. */
  lemma {:induction false} KnownKeyExactly<S, C>(
    p: Platform<S, C>, b: Bounds, e: Engine<S, C>, patch: Patch<C>, extraction: Extraction)
    requires e.nextFrame != 0 && patch.key in e.world.records
    ensures var (t, r) := ApplyPatch(p, b, e, patch, extraction);
      && t == e
      && (r.None? <==> p.valid(patch) && e.world.records[patch.key].transaction == patch.transaction)
      && (r == Some(KeyConflict) <==> p.valid(patch) && e.world.records[patch.key].transaction != patch.transaction)
      && (r == Some(PatchRejected) <==> !p.valid(patch))
  {
  }

  /** Exactly when a patch with a new key is refused, and for which reason. */
  lemma {:induction false} NewKeyExactly<S, C>(
    p: Platform<S, C>, b: Bounds, e: Engine<S, C>, patch: Patch<C>, extraction: Extraction)
    requires e.nextFrame != 0 && patch.key !in e.world.records
    ensures var r := ApplyPatch(p, b, e, patch, extraction).1;
      var encoded := p.valid(patch) && p.encodes(patch);
      && (r == Some(PatchNotEncoded) <==> !encoded)
      && (r == Some(EntryCapacityExceeded) <==> encoded && |e.log| >= b.maxEntries)
      && (r == Some(EntrySizeExceeded) <==>
          encoded && |e.log| < b.maxEntries && EntryBytes(p, patch) > b.maxEntryBytes)
      && (r == Some(LogSizeExceeded) <==>
          && encoded && |e.log| < b.maxEntries && EntryBytes(p, patch) <= b.maxEntryBytes
          && LogBytes(p, e.log) + EntryBytes(p, patch) > b.maxLogBytes)
      && (r == Some(PatchRejected) <==> Recordable(p, b, e, patch) && WorldApply(p, b, e.world, patch).None?)
      && (r == Some(ExtractionFailed) <==>
          Recordable(p, b, e, patch) && WorldApply(p, b, e.world, patch).Some? && !extraction.Applied?)
      && (r.None? <==>
          Recordable(p, b, e, patch) && WorldApply(p, b, e.world, patch).Some? && extraction.Applied?)
  {
  }

  /** A new patch within every bound is applied, recorded and extracted. */
  lemma {:induction false} NewPatchApplies<S, C>(
    p: Platform<S, C>, b: Bounds, e: Engine<S, C>, patch: Patch<C>, w: World<S, C>)
    requires e.nextFrame != 0 && patch.key !in e.world.records && |e.log| < b.maxEntries
    requires p.valid(patch) && p.encodes(patch)
    requires EntryBytes(p, patch) <= b.maxEntryBytes && LogBytes(p, e.log) + EntryBytes(p, patch) <= b.maxLogBytes
    requires WorldApply(p, b, e.world, patch) == Some(w)
    ensures ApplyPatch(p, b, e, patch, Applied) == (
      Engine(
        w.(pending := {}), e.log + [MakeEntry(p, e.log, patch, e.nextFrame, w.scene)], e.nextFrame, w.revision),
      None)
  {
  }

  /** Recording an accepted patch extends a genuine log to a genuine log. */
  lemma {:induction false} AppendIsGenuine<S, C>(
    p: Platform<S, C>, b: Bounds, log: seq<Entry<C>>, patch: Patch<C>, frame: nat)
    requires Genuine(p, b, log) && patch.key !in RecordsOf(log) && p.step(SceneOf(p, log), |log|, patch).Some?
    requires |log| < b.maxRecords && |log| < b.maxEntries && EntryBytes(p, patch) <= b.maxEntryBytes
    requires LogBytes(p, log) + EntryBytes(p, patch) <= b.maxLogBytes
    ensures var scene := p.step(SceneOf(p, log), |log|, patch).value;
      var longer := log + [MakeEntry(p, log, patch, frame, scene)];
      Genuine(p, b, longer) && SceneOf(p, longer) == scene && RecordsOf(longer) == RecordsOf(log)[patch.key := patch]
      && MaxFrame(longer) == Max(MaxFrame(log), frame)
  {
    var scene := p.step(SceneOf(p, log), |log|, patch).value;
    assert Front(log + [MakeEntry(p, log, patch, frame, scene)]) == log;
  }

  lemma {:induction false} MaxFrameTake<C>(log: seq<Entry<C>>, n: nat)
    requires n <= |log|
    ensures MaxFrame(log[..n]) <= MaxFrame(log)
    decreases |log|
  {
    if n < |log| {
      MaxFrameTake(Front(log), n);
      assert Front(log)[..n] == log[..n];
    } else {
      assert log[..n] == log;
    }
  }

  /** Every recovery point an engine produces passes the load and frame checks. */
  lemma {:induction false} PointsPassChecks<S, C>(p: Platform<S, C>, b: Bounds, e: Engine<S, C>, revision: nat)
    requires Inv(p, b, e) && PointAt(e, revision).Ok?
    ensures var point := PointAt(e, revision).value;
      Loads(p, b, point.entries) && ValidateRecoveryFrame(point.entries, point.nextFrame).None?
      && Genuine(p, b, point.entries)
  {
    GenuineTake(p, b, e.log, revision);
    GenuineLoads(p, b, e.log[..revision]);
    MaxFrameTake(e.log, revision);
  }

  /**
   * Restoring a produced point works exactly when its whole history fits the pending-change bound and the renderer
   * starts. The restored engine is the recorded state at that revision with the same next frame identity.
   */
  lemma {:induction false} RestoreIff<S, C>(p: Platform<S, C>, b: Bounds, e: Engine<S, C>, revision: nat, gpu: bool)
    requires Inv(p, b, e) && PointAt(e, revision).Ok?
    ensures var r := Restore(p, b, PointAt(e, revision).value, gpu);
      && (r.Ok? <==> |Touched(p, e.log[..revision])| <= b.maxPending && gpu)
      && (r.Ok? ==>
          && r.value == Engine(World(SceneOf(p, e.log[..revision]), revision, RecordsOf(e.log[..revision]), {}),
                               e.log[..revision], e.nextFrame, revision)
          && Inv(p, b, r.value))
  {
    PointsPassChecks(p, b, e, revision);
    ReplayIff(p, b, e.log[..revision]);
    MaxFrameTake(e.log, revision);
  }

  // ----- any point -----

  lemma {:induction false} MaxFrameIs<C>(log: seq<Entry<C>>) returns (at: nat)
    requires log != []
    ensures at < |log| && log[at].frame == MaxFrame(log)
    ensures forall i | 0 <= i < |log| :: log[i].frame <= MaxFrame(log)
  {
    at := |log| - 1;
    if |log| > 1 {
      var before := MaxFrameIs(Front(log));
      if Last(log).frame < log[before].frame { at := before; }
      assert forall i | 0 <= i < |log| - 1 :: log[i] == Front(log)[i];
    }
  }

  /** No recorded frame runs ahead of the next one. */
  ghost predicate FramesReached<C>(point: Point<C>) {
    forall i | 0 <= i < |point.entries| :: point.entries[i].frame <= point.nextFrame
  }

  /** The refusal names the next frame and the largest recorded one, which is ahead of it. */
  ghost predicate Behind<C>(point: Point<C>, e: EngineError) {
    && e.FrameBehindReplay? && e.next == point.nextFrame < e.recorded
    && (exists i | 0 <= i < |point.entries| :: point.entries[i].frame == e.recorded)
    && (forall i | 0 <= i < |point.entries| :: point.entries[i].frame <= e.recorded)
  }

  lemma {:induction false} FrameCheck<C>(point: Point<C>)
    ensures ValidateRecoveryFrame(point.entries, point.nextFrame).None? <==> FramesReached(point)
    ensures !FramesReached(point) ==> Behind(point, ValidateRecoveryFrame(point.entries, point.nextFrame).value)
    ensures FramesReached(point) ==> MaxFrame(point.entries) <= point.nextFrame
  {
    if point.entries != [] { var at := MaxFrameIs(point.entries); }
  }

  /**
   * Every point, produced or not: it is refused as unverified exactly when its entries are not linked, then by frame
   * exactly when a recorded frame is ahead of the next one, then by the replay exactly when no recorded world wrote it
   * or its history does not fit, and last by the renderer.
   */
  lemma {:induction false} RestoreExactly<S, C>(p: Platform<S, C>, b: Bounds, point: Point<C>, gpu: bool)
    ensures var r := Restore(p, b, point, gpu);
      && (r == Err(UnverifiedTail) <==> !Linked(p, b, point.entries))
      && (r.Err? && r.error.FrameBehindReplay? <==> Linked(p, b, point.entries) && !FramesReached(point))
      && (r.Err? && r.error.FrameBehindReplay? ==> Behind(point, r.error))
      && (r == Err(ReplayFailed) <==>
          && Linked(p, b, point.entries) && FramesReached(point)
          && !(Genuine(p, b, point.entries) && |Touched(p, point.entries)| <= b.maxPending))
      && (r.Ok? <==>
          && Linked(p, b, point.entries) && FramesReached(point)
          && Genuine(p, b, point.entries) && |Touched(p, point.entries)| <= b.maxPending && gpu)
  {
    LoadsIff(p, b, point.entries);
    FrameCheck(point);
    if Linked(p, b, point.entries) {
      if Replay(p, b, point.entries).Some? { ReplayedIsGenuine(p, b, point.entries); }
      if Genuine(p, b, point.entries) { ReplayIff(p, b, point.entries); }
    }
  }

  /**
   * Whatever point is restored, the engine keeps the invariant, holds the entries and the next frame of the point, and
   * every one of its entries is linked and no later than that frame.
   */
  lemma {:induction false} RestoredIsSound<S, C>(p: Platform<S, C>, b: Bounds, point: Point<C>, gpu: bool)
    requires point.nextFrame <= U64_MAX && Restore(p, b, point, gpu).Ok?
    ensures var e := Restore(p, b, point, gpu).value;
      && e.log == point.entries && e.nextFrame == point.nextFrame && e.rendererRevision == |point.entries|
      && e.world == World(SceneOf(p, e.log), |e.log|, RecordsOf(e.log), {})
      && Inv(p, b, e)
    ensures Linked(p, b, point.entries) && FramesReached(point)
  {
    RestoreExactly(p, b, point, gpu);
    ReplayIff(p, b, point.entries);
    FrameCheck(point);
  }

  // ----- branches -----

  /** One action on a branch; `Replace` continues on an engine restored from the point at `revision`. */
  datatype Action<C> =
    | Apply(patch: Patch<C>, extraction: Extraction)
    | Render(ready: bool)
    | Replace(revision: nat, gpu: bool)

  function Next<S, C>(p: Platform<S, C>, b: Bounds, e: Engine<S, C>, a: Action<C>): Engine<S, C> {
    match a
    case Apply(patch, extraction) => ApplyPatch(p, b, e, patch, extraction).0
    case Render(ready) => SubmitScene(e, ready).0
    case Replace(revision, gpu) =>
      var point := PointAt(e, revision);
      if point.Err? then e
      else
        var restored := Restore(p, b, point.value, gpu);
        if restored.Err? then e else restored.value
  }

  function After<S, C>(p: Platform<S, C>, b: Bounds, e: Engine<S, C>, run: seq<Action<C>>): Engine<S, C> {
    if run == [] then e else Next(p, b, After(p, b, e, run[..|run| - 1]), run[|run| - 1])
  }

  /** The frame identity issued by an action, if any. */
  function IssuedBy<S, C>(e: Engine<S, C>, a: Action<C>): seq<nat> {
    if a.Render? && SubmitScene(e, a.ready).1.Ok? then [SubmitScene(e, a.ready).1.value] else []
  }

  function Issued<S, C>(p: Platform<S, C>, b: Bounds, e: Engine<S, C>, run: seq<Action<C>>): seq<nat> {
    if run == [] then []
    else
      var n := |run| - 1;
      Issued(p, b, e, run[..n]) + IssuedBy(After(p, b, e, run[..n]), run[n])
  }

  lemma {:induction false} NextKeepsInv<S, C>(p: Platform<S, C>, b: Bounds, e: Engine<S, C>, a: Action<C>)
    requires Inv(p, b, e)
    ensures Inv(p, b, Next(p, b, e, a))
  {
    match a
    case Apply(patch, extraction) => ApplyKeepsInv(p, b, e, patch, extraction);
    case Render(_) =>
    case Replace(revision, gpu) => if PointAt(e, revision).Ok? { RestoreIff(p, b, e, revision, gpu); }
  }

  /** Every engine on every branch keeps the invariant. */
  lemma {:induction false} BranchKeepsInv<S, C>(p: Platform<S, C>, b: Bounds, e: Engine<S, C>, run: seq<Action<C>>)
    requires Inv(p, b, e)
    ensures Inv(p, b, After(p, b, e, run))
  {
    if run != [] {
      BranchKeepsInv(p, b, e, run[..|run| - 1]);
      NextKeepsInv(p, b, After(p, b, e, run[..|run| - 1]), run[|run| - 1]);
    }
  }

  /** Strictly increasing, and below the next identity while there is one. */
  ghost predicate Climbs(frames: seq<nat>, next: nat) {
    && (forall i, j | 0 <= i < j < |frames| :: frames[i] < frames[j])
    && (forall i | 0 <= i < |frames| :: 1 <= frames[i] && (next != 0 ==> frames[i] < next))
  }

  /** Only rendering moves the counter, and only forward. */
  lemma {:induction false} CounterStep<S, C>(p: Platform<S, C>, b: Bounds, e: Engine<S, C>, a: Action<C>)
    requires Inv(p, b, e)
    ensures Next(p, b, e, a).nextFrame == (if IssuedBy(e, a) == [] then e.nextFrame else AfterFrame(e.nextFrame))
    ensures IssuedBy(e, a) == [] || (e.nextFrame != 0 && IssuedBy(e, a) == [e.nextFrame])
  {
    if a.Replace? && PointAt(e, a.revision).Ok? { RestoreIff(p, b, e, a.revision, a.gpu); }
  }

  /** Along any branch, through restores, forks and reverts, no frame identity is issued twice. */
  lemma {:induction false} FramesNeverReissued<S, C>(p: Platform<S, C>, b: Bounds, run: seq<Action<C>>)
    requires HEADER_BYTES <= b.maxLogBytes
    ensures Climbs(Issued(p, b, NewEngine(p), run), After(p, b, NewEngine(p), run).nextFrame)
  {
    if run != [] {
      var n := |run| - 1;
      FramesNeverReissued(p, b, run[..n]);
      BranchKeepsInv(p, b, NewEngine(p), run[..n]);
      CounterStep(p, b, After(p, b, NewEngine(p), run[..n]), run[n]);
    }
  }

  // ----- the pending-change bound -----

  /** A history that touched too much fails in the replay, after every earlier check passed. */
  lemma {:induction false} OverflowingHistoryFails<S, C>(p: Platform<S, C>, b: Bounds, e: Engine<S, C>, gpu: bool)
    requires Inv(p, b, e) && e.nextFrame != 0 && |Touched(p, e.log)| > b.maxPending
    ensures PointAt(e, |e.log|).Ok? && Restore(p, b, PointAt(e, |e.log|).value, gpu) == Err(ReplayFailed)
  {
    PointsPassChecks(p, b, e, |e.log|);
    assert e.log[..|e.log|] == e.log;
    ReplayIff(p, b, e.log);
  }
}
