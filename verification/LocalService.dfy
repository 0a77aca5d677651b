/** In-place revert of a local service (service.rs): a complete replacement is built first, then assigned. */
module LocalService {
  import opened Machine
  import opened ReplayLog
  import opened Recovery

  datatype GatewayConfig = GatewayConfig(commandCapacity: NonZero32, idempotencyCapacity: NonZero32)

  datatype Config<!S, !C> = Config(
    platform: Platform<S, C>, bounds: Bounds, gateway: GatewayConfig, maxQueueCapacity: NonZero32)

  /** Everything a revert may clear: commands, results, observations, imports, uploads and asset residency. */
  datatype Occupancy = Occupancy(
    commands: nat, completed: nat, observations: nat, imports: nat, uploads: nat,
    assetRecords: nat, cpuBytes: nat, meshes: nat, gpuBytes: nat)

  const IDLE: Occupancy := Occupancy(0, 0, 0, 0, 0, 0, 0, 0, 0)

  predicate Quiescent(o: Occupancy) { o.commands == 0 && o.observations == 0 && o.imports == 0 && o.uploads == 0 }

  datatype RevertError =
    | TargetIsCurrent(revision: nat)
    | NotQuiescent(commands: nat, observations: nat, imports: nat, uploads: nat)
    | InvalidGatewayConfig
    | EngineFailed(error: EngineError)

  datatype Receipt = Receipt(
    previousRevision: nat, targetRevision: nat, removedEntries: nat, nextFrame: nat, cleared: Occupancy)

  predicate GatewayAccepted<S, C>(config: Config<S, C>, available: nat) {
    && config.gateway.commandCapacity <= config.maxQueueCapacity
    && config.gateway.commandCapacity <= config.gateway.idempotencyCapacity
    && config.gateway.idempotencyCapacity <= available
  }

  /** Unused idempotency records, saturating at zero. */
  function Available<S, C>(config: Config<S, C>, used: nat): nat {
    if used <= config.bounds.maxRecords then config.bounds.maxRecords - used else 0
  }

  /** `LocalService::restore`: both gateway checks, the replay, then the renderer. */
  function RestoreService<S, C>(config: Config<S, C>, point: Point<C>, gpu: bool): Result<Engine<S, C>, RevertError> {
    if !GatewayAccepted(config, config.bounds.maxRecords) then Err(InvalidGatewayConfig)
    else
      var world := PrepareRestore(config.platform, config.bounds, point);
      if world.Err? then Err(EngineFailed(world.error))
      else if !GatewayAccepted(config, Available(config, |world.value.records|)) then Err(InvalidGatewayConfig)
      else
        var engine := RestorePrepared(point, world.value, gpu);
        if engine.Err? then Err(EngineFailed(engine.error)) else Ok(engine.value)
  }

  /** Revision `revision` can be restored under this configuration, whatever the renderer does. */
  ghost predicate Restorable<S, C>(config: Config<S, C>, log: seq<Entry<C>>, revision: nat) {
    && revision <= |log|
    && |Touched(config.platform, log[..revision])| <= config.bounds.maxPending
    && revision + config.gateway.idempotencyCapacity <= config.bounds.maxRecords
  }

  ghost function EngineAt<S, C>(p: Platform<S, C>, e: Engine<S, C>, revision: nat): Engine<S, C>
    requires revision <= |e.log|
  {
    var log := e.log[..revision];
    Engine(World(SceneOf(p, log), revision, RecordsOf(log), {}), log, e.nextFrame, revision)
  }

  lemma {:induction false} RestoreServiceIff<S, C>(config: Config<S, C>, e: Engine<S, C>, revision: nat, gpu: bool)
    requires Inv(config.platform, config.bounds, e) && PointAt(e, revision).Ok?
    requires GatewayAccepted(config, config.bounds.maxRecords)
    ensures var r := RestoreService(config, PointAt(e, revision).value, gpu);
      && (r.Ok? <==> Restorable(config, e.log, revision) && gpu)
      && (r.Ok? ==> r.value == EngineAt(config.platform, e, revision) && Inv(config.platform, config.bounds, r.value))
  {
    var p, b := config.platform, config.bounds;
    RestoreIff(p, b, e, revision, gpu);
    PointsPassChecks(p, b, e, revision);
    ReplayIff(p, b, e.log[..revision]);
    GenuineFacts(p, b, e.log[..revision]);
  }

  class Service<S, C> {
    const config: Config<S, C>
    var engine: Engine<S, C>
    var occupancy: Occupancy

    ghost predicate Valid() reads this {
      Inv(config.platform, config.bounds, engine) && GatewayAccepted(config, config.bounds.maxRecords)
    }

    constructor (config: Config<S, C>)
      requires GatewayAccepted(config, config.bounds.maxRecords) && HEADER_BYTES <= config.bounds.maxLogBytes
      ensures Valid() && this.config == config && engine == NewEngine(config.platform) && occupancy == IDLE
    {
      this.config, engine, occupancy := config, NewEngine(config.platform), IDLE;
    }

    /**
     * Succeeds exactly for an older restorable revision of a quiescent service that still has a frame identity, and
     * then holds the recorded state at that revision with the next frame identity kept. On failure nothing changes.
     */
    method RevertToRevision(revision: nat, gpu: bool) returns (r: Result<Receipt, RevertError>)
      requires Valid()
      modifies this
      ensures Valid()
      ensures r.Ok? <==>
        (revision < old(engine).world.revision && old(engine).nextFrame != 0 && Quiescent(old(occupancy))
         && Restorable(config, old(engine).log, revision) && gpu)
      ensures r.Err? ==> engine == old(engine) && occupancy == old(occupancy)
      ensures r.Ok? ==> revision <= |old(engine).log| && engine == EngineAt(config.platform, old(engine), revision)
      ensures r.Ok? ==> occupancy == IDLE && r.value.cleared == old(occupancy) && r.value.nextFrame == engine.nextFrame
      ensures r.Ok? ==> |old(engine).log| == |engine.log| + r.value.removedEntries
      ensures r.Ok? ==> r.value.previousRevision == old(engine).world.revision && r.value.targetRevision == revision
      ensures r == Err(TargetIsCurrent(revision)) <==> revision == old(engine).world.revision
      ensures r.Err? && r.error.NotQuiescent? <==>
        revision < old(engine).world.revision && old(engine).nextFrame != 0 && !Quiescent(old(occupancy))
    {
      var current := engine.world.revision;
      if revision == current { return Err(TargetIsCurrent(revision)); }
      var point := PointAt(engine, revision);
      if point.Err? { return Err(EngineFailed(point.error)); }
      if !Quiescent(occupancy) {
        return Err(NotQuiescent(occupancy.commands, occupancy.observations, occupancy.imports, occupancy.uploads));
      }
      var receipt := Receipt(current, revision, if revision <= current then current - revision else 0,
                             point.value.nextFrame, occupancy);
      RestoreServiceIff(config, engine, revision, gpu);
      var replacement := RestoreService(config, point.value, gpu);
      if replacement.Err? { return Err(replacement.error); }
      engine, occupancy := replacement.value, IDLE;
      return Ok(receipt);
    }
  }
}
