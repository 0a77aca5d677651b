/**
 * The observation permit protocol between one caller and one worker over two bounded channels (observation.rs),
 * as a state machine over every interleaving of their steps.
 */
module ObservationQueue {
  import opened Machine
  import opened Protocol
  import opened ObservationSlots

  datatype Kind = Color | Depth | Normal | EntityId | Visibility

  datatype Request = Request(observationId: nat, sceneRevision: nat, cameraId: nat, kind: Kind, quality: nat)

  /** What a submitted frame will show; the frame read back later carries the same source. */
  datatype Source = Source(sceneRevision: nat, frameId: nat, cameraId: nat, width: NonZero32, height: NonZero32)

  datatype Job = Job(permit: nat, source: Source, request: Request)

  /** A job with the outcome of reading its frame back: the pixels, or the renderer's error. */
  datatype Completion = Completion(job: Job, read: Result<nat, nat>)

  /** A dying worker first drops its active job, and only then its ends of the channels. */
  datatype Worker = Running | Unwinding | Gone

  datatype State = State(
    slots: Slots,
    held: seq<nat>,
    jobs: seq<Job>,
    active: Option<Job>,
    results: seq<Completion>,
    delivering: Option<Completion>,
    worker: Worker)

  function Initial(capacity: NonZero32): State { State(Start(capacity), [], [], None, [], None, Running) }

  /**
   * Caller steps: reserve a permit, drop an unused one, submit a job, take a completion, finish delivering it.
   * Worker steps: fetch a job, send its completion. A worker that dies panics, hangs up, and then drops the queued
   * jobs one by one.
   */
  datatype Step =
    | Reserve
    | Abandon(k: nat)
    | Submit(k: nat, source: Source, request: Request)
    | Take
    | Finish(latest: nat)
    | Fetch
    | Send(read: Result<nat, nat>)
    | Panic
    | HangUp
    | Drain

  /** Both channels hold `capacity` messages; the worker's send waits for room in the result channel. */
  predicate Enabled(s: State, step: Step) {
    match step
    case Reserve => true
    case Abandon(k) => k < |s.held|
    case Submit(k, _, _) => k < |s.held|
    case Take => s.delivering.None?
    case Finish(_) => s.delivering.Some?
    case Fetch => s.worker.Running? && s.active.None? && s.jobs != []
    case Send(_) => s.worker.Running? && s.active.Some? && |s.results| < s.slots.capacity
    case Panic => s.worker.Running?
    case HangUp => s.worker.Unwinding?
    case Drain => s.worker.Gone? && s.jobs != []
  }

  datatype Event =
    | Quiet
    | Reserved(permit: nat)
    | CapacityExceeded
    | Accepted(job: Job)
    | ChannelFull
    | WorkerUnavailable
    | Delivered(completion: Completion, latest: nat)
    | Lost(jobs: seq<Job>)

  function OptionSeq<T>(o: Option<T>): seq<T> { if o.Some? then [o.value] else [] }

  function JobsOf(results: seq<Completion>): seq<Job> {
    seq(|results|, i requires 0 <= i < |results| => results[i].job)
  }

  function PermitsOf(jobs: seq<Job>): seq<nat> {
    seq(|jobs|, i requires 0 <= i < |jobs| => jobs[i].permit)
  }

  /** Dropping held permit `k`. */
  function DropHeld(s: State, k: nat): State
    requires k < |s.held|
  {
    s.(slots := Release(s.slots, s.held[k]), held := s.held[..k] + s.held[k + 1..])
  }

  /** A step that is not enabled does not happen. */
  function Next(s: State, step: Step): State {
    if !Enabled(s, step) then s
    else
      match step
      case Reserve =>
        if CanAcquire(s.slots) then s.(slots := Acquire(s.slots), held := s.held + [NextPermit(s.slots)]) else s
      case Abandon(k) => DropHeld(s, k)
      case Submit(k, source, request) =>
        if !s.worker.Gone? && |s.jobs| < s.slots.capacity then
          s.(held := s.held[..k] + s.held[k + 1..], jobs := s.jobs + [Job(s.held[k], source, request)])
        else DropHeld(s, k)
      case Take => if s.results == [] then s else s.(delivering := Some(s.results[0]), results := s.results[1..])
      case Finish(_) => s.(slots := Release(s.slots, s.delivering.value.job.permit), delivering := None)
      case Fetch => s.(active := Some(s.jobs[0]), jobs := s.jobs[1..])
      case Send(read) => s.(active := None, results := s.results + [Completion(s.active.value, read)])
      case Panic =>
        s.(worker := Unwinding, active := None,
           slots := if s.active.Some? then Release(s.slots, s.active.value.permit) else s.slots)
      case HangUp => s.(worker := Gone)
      case Drain => s.(jobs := s.jobs[1..], slots := Release(s.slots, s.jobs[0].permit))
  }

  function Observe(s: State, step: Step): Event {
    if !Enabled(s, step) then Quiet
    else
      match step
      case Reserve => if CanAcquire(s.slots) then Reserved(NextPermit(s.slots)) else CapacityExceeded
      case Submit(k, source, request) =>
        if s.worker.Gone? then WorkerUnavailable
        else if |s.jobs| >= s.slots.capacity then ChannelFull
        else Accepted(Job(s.held[k], source, request))
      case Take => if s.results == [] && s.worker.Gone? then WorkerUnavailable else Quiet
      case Finish(latest) => Delivered(s.delivering.value, latest)
      case Panic => Lost(OptionSeq(s.active))
      case Drain => Lost([s.jobs[0]])
      case _ => Quiet
  }

  function After(s: State, run: seq<Step>): State {
    if run == [] then s else Next(After(s, run[..|run| - 1]), run[|run| - 1])
  }

  // ----- permits -----

  /** Admitted work in delivery order: being delivered, completed, active, queued. */
  function InFlight(s: State): seq<Job> {
    JobsOf(OptionSeq(s.delivering) + s.results) + OptionSeq(s.active) + s.jobs
  }

  /** Every permit in existence, wherever it is held. */
  ghost function Live(s: State): multiset<nat> { multiset(s.held) + multiset(PermitsOf(InFlight(s))) }

  ghost predicate Inv(s: State) {
    && s.slots.capacity > 0
    && Accounts(s.slots, Live(s))
    && (!s.worker.Running? ==> s.active.None?)
  }

  /** The count is exactly the held permits plus the queued, active, completed and delivering requests. */
  lemma CountIsExact(s: State)
    requires Inv(s)
    ensures s.slots.inUse == |s.slots.pending| <= s.slots.capacity
    ensures s.slots.inUse == |s.held| + |s.jobs| + |OptionSeq(s.active)| + |s.results| + |OptionSeq(s.delivering)|
  {
    assert |Live(s)| == |s.held| + |PermitsOf(InFlight(s))|;
    assert |multiset(s.slots.pending)| == |s.slots.pending|;
  }

  /** A caller with a permit always finds room in the job channel. */
  lemma ChannelNeverFull(s: State, k: nat, source: Source, request: Request)
    requires Inv(s) && k < |s.held|
    ensures Observe(s, Submit(k, source, request)) ==
      if s.worker.Gone? then WorkerUnavailable else Accepted(Job(s.held[k], source, request))
  {
    CountIsExact(s);
  }

  /** The worker's send never waits. */
  lemma SendNeverBlocks(s: State, read: Result<nat, nat>)
    requires Inv(s) && s.active.Some?
    ensures Enabled(s, Send(read))
  {
    CountIsExact(s);
  }

  lemma PermitsConcat(a: seq<Job>, b: seq<Job>)
    ensures PermitsOf(a + b) == PermitsOf(a) + PermitsOf(b)
  {
  }

  /** Completed work waiting for the caller. */
  function Completed(s: State): seq<Job> { JobsOf(OptionSeq(s.delivering) + s.results) }

  /** How each step changes the work in flight. */
  lemma {:induction false} InFlightStep(s: State, step: Step)
    requires Enabled(s, step)
    ensures match Observe(s, step)
      case Accepted(job) => InFlight(Next(s, step)) == InFlight(s) + [job]
      case Delivered(c, _) => InFlight(s) == [c.job] + InFlight(Next(s, step))
      case Lost(_) => true
      case _ => InFlight(Next(s, step)) == InFlight(s)
  {
    match step
    case Submit(k, source, request) => SubmitFlight(s, k, source, request);
    case Finish(latest) => FinishFlight(s, latest);
    case Take => TakeFlight(s);
    case Fetch => FetchFlight(s);
    case Send(read) => SendFlight(s, read);
    case _ =>
  }

  lemma SubmitFlight(s: State, k: nat, source: Source, request: Request)
    requires k < |s.held|
    ensures var step := Submit(k, source, request);
      InFlight(Next(s, step)) ==
        InFlight(s) + (if Observe(s, step).Accepted? then [Observe(s, step).job] else [])
  {
    var done := JobsOf(OptionSeq(s.delivering) + s.results) + OptionSeq(s.active);
    assert done + (s.jobs + [Job(s.held[k], source, request)]) == done + s.jobs + [Job(s.held[k], source, request)];
  }

  lemma FinishFlight(s: State, latest: nat)
    requires s.delivering.Some?
    ensures InFlight(s) == [s.delivering.value.job] + InFlight(Next(s, Finish(latest)))
  {
    var d := s.delivering.value;
    assert JobsOf([d] + s.results) == [d.job] + JobsOf([] + s.results);
  }

  lemma TakeFlight(s: State)
    requires s.delivering.None?
    ensures InFlight(Next(s, Take)) == InFlight(s)
  {
    if s.results != [] { assert [s.results[0]] + s.results[1..] == [] + s.results; }
  }

  lemma FetchFlight(s: State)
    requires Enabled(s, Fetch)
    ensures InFlight(Next(s, Fetch)) == InFlight(s)
  {
    var done := JobsOf(OptionSeq(s.delivering) + s.results);
    assert done + [s.jobs[0]] + s.jobs[1..] == done + [] + s.jobs;
  }

  lemma SendFlight(s: State, read: Result<nat, nat>)
    requires Enabled(s, Send(read))
    ensures InFlight(Next(s, Send(read))) == InFlight(s)
  {
    var c := Completion(s.active.value, read);
    var d := OptionSeq(s.delivering);
    assert JobsOf(d + (s.results + [c])) == JobsOf(d + s.results) + [s.active.value];
    assert JobsOf(d + (s.results + [c])) + [] == JobsOf(d + s.results) + [s.active.value];
  }

  lemma {:induction false} DropHeldKeepsInv(s: State, k: nat)
    requires Inv(s) && k < |s.held|
    ensures Inv(DropHeld(s, k))
  {
    ReleaseAccounts(s.slots, Live(s), s.held[k]);
    MultisetRemoveAt(s.held, k);
    var t := DropHeld(s, k);
    assert InFlight(t) == InFlight(s);
    assert Live(t) == Live(s) - multiset{s.held[k]};
  }

  lemma {:induction false} SubmitKeepsInv(s: State, k: nat, source: Source, request: Request)
    requires Inv(s) && k < |s.held|
    ensures Inv(Next(s, Submit(k, source, request)))
  {
    ChannelNeverFull(s, k, source, request);
    if !s.worker.Gone? {
      SubmitMovesPermit(s, k, source, request);
    } else {
      DropHeldKeepsInv(s, k);
    }
  }

  /** An accepted submission moves its permit into the job and creates none. */
  lemma {:induction false} SubmitMovesPermit(s: State, k: nat, source: Source, request: Request)
    requires k < |s.held| && !s.worker.Gone? && |s.jobs| < s.slots.capacity
    ensures Live(Next(s, Submit(k, source, request))) == Live(s)
  {
    var job := Job(s.held[k], source, request);
    SubmitFlight(s, k, source, request);
    PermitsConcat(InFlight(s), [job]);
    assert PermitsOf([job]) == [job.permit];
    MultisetRemoveAt(s.held, k);
  }

  /** Finishing a delivery frees exactly the delivered permit. */
  lemma {:induction false} FinishFreesPermit(s: State, latest: nat)
    requires s.delivering.Some?
    ensures s.delivering.value.job.permit in Live(s)
    ensures Live(Next(s, Finish(latest))) == Live(s) - multiset{s.delivering.value.job.permit}
  {
    var t := Next(s, Finish(latest));
    var job := s.delivering.value.job;
    FinishFlight(s, latest);
    PermitsConcat([job], InFlight(t));
    assert PermitsOf([job]) == [job.permit];
    assert Live(s) == Live(t) + multiset{job.permit};
  }

  lemma {:induction false} FinishKeepsInv(s: State, latest: nat)
    requires Inv(s) && s.delivering.Some?
    ensures Inv(Next(s, Finish(latest)))
  {
    var permit := s.delivering.value.job.permit;
    FinishFreesPermit(s, latest);
    ReleaseAccounts(s.slots, Live(s), permit);
  }

  /** Dropping one job that is in flight frees exactly its permit. */
  lemma {:induction false} LoseOne(s: State, t: State, front: seq<Job>, job: Job, back: seq<Job>)
    requires InFlight(s) == front + [job] + back && InFlight(t) == front + back && t.held == s.held
    ensures job.permit in Live(s) && Live(t) == Live(s) - multiset{job.permit}
  {
    PermitsConcat(front + [job], back);
    PermitsConcat(front, [job]);
    PermitsConcat(front, back);
    assert PermitsOf([job]) == [job.permit];
    assert Live(s) == Live(t) + multiset{job.permit};
  }

  lemma {:induction false} PanicKeepsInv(s: State)
    requires Inv(s) && s.worker.Running?
    ensures Inv(Next(s, Panic))
  {
    var t := Next(s, Panic);
    if s.active.Some? {
      assert InFlight(s) == Completed(s) + [s.active.value] + s.jobs;
      assert InFlight(t) == Completed(s) + s.jobs;
      LoseOne(s, t, Completed(s), s.active.value, s.jobs);
      ReleaseAccounts(s.slots, Live(s), s.active.value.permit);
    } else {
      assert InFlight(t) == InFlight(s);
    }
  }

  lemma {:induction false} DrainKeepsInv(s: State)
    requires Inv(s) && Enabled(s, Drain)
    ensures Inv(Next(s, Drain))
  {
    var t := Next(s, Drain);
    assert s.jobs == [s.jobs[0]] + s.jobs[1..];
    assert InFlight(s) == Completed(s) + [s.jobs[0]] + s.jobs[1..];
    assert InFlight(t) == Completed(s) + s.jobs[1..];
    LoseOne(s, t, Completed(s), s.jobs[0], s.jobs[1..]);
    ReleaseAccounts(s.slots, Live(s), s.jobs[0].permit);
  }

  lemma {:induction false} ReserveKeepsInv(s: State)
    requires Inv(s)
    ensures Inv(Next(s, Reserve))
  {
    if CanAcquire(s.slots) {
      AcquireAccounts(s.slots, Live(s));
      var t := Next(s, Reserve);
      assert InFlight(t) == InFlight(s);
      assert Live(t) == Live(s) + multiset{NextPermit(s.slots)};
    }
  }

  /** Every step of either thread keeps the accounting exact. */
  lemma {:induction false} NextKeepsInv(s: State, step: Step)
    requires Inv(s)
    ensures Inv(Next(s, step))
  {
    if Enabled(s, step) {
      match step
      case Reserve => ReserveKeepsInv(s);
      case Abandon(k) => DropHeldKeepsInv(s, k);
      case Submit(k, source, request) => SubmitKeepsInv(s, k, source, request);
      case Finish(latest) => FinishKeepsInv(s, latest);
      case Panic => PanicKeepsInv(s);
      case Drain => DrainKeepsInv(s);
      case _ => InFlightStep(s, step);
    }
  }

  /** Every reachable state accounts exactly: no fault, no lost record, never over capacity. */
  lemma {:induction false} ReachableKeepsInv(capacity: NonZero32, run: seq<Step>)
    ensures Inv(After(Initial(capacity), run))
  {
    if run != [] {
      ReachableKeepsInv(capacity, run[..|run| - 1]);
      NextKeepsInv(After(Initial(capacity), run[..|run| - 1]), run[|run| - 1]);
    }
  }

  // ----- order -----

  /** What a run admitted, delivered and lost, in order. */
  datatype Journal = Journal(accepted: seq<Job>, delivered: seq<Completion>, lost: seq<Job>)

  function Recorded(j: Journal, e: Event): Journal {
    match e
    case Accepted(job) => j.(accepted := j.accepted + [job])
    case Delivered(c, _) => j.(delivered := j.delivered + [c])
    case Lost(jobs) => j.(lost := j.lost + jobs)
    case _ => j
  }

  function JournalOf(s: State, run: seq<Step>): Journal {
    if run == [] then Journal([], [], [])
    else
      var n := |run| - 1;
      Recorded(JournalOf(s, run[..n]), Observe(After(s, run[..n]), run[n]))
  }

  /**
   * Admitted jobs are the delivered ones, the completed ones, the active one, those a dying worker lost, and the queued
   * ones, in that order.
   */
  ghost predicate InOrder(j: Journal, s: State) {
    && j.accepted == JobsOf(j.delivered) + Completed(s) + OptionSeq(s.active) + j.lost + s.jobs
    && (s.worker.Running? ==> j.lost == [])
    && (!s.worker.Running? ==> s.active.None?)
  }

  lemma {:induction false} OrderStep(j: Journal, s: State, step: Step)
    requires InOrder(j, s) && Enabled(s, step)
    ensures InOrder(Recorded(j, Observe(s, step)), Next(s, step))
  {
    match step
    case Submit(k, source, request) => OrderSubmit(j, s, k, source, request);
    case Finish(latest) => OrderFinish(j, s, latest);
    case Take => OrderTake(j, s);
    case Fetch => OrderFetch(j, s);
    case Send(read) => OrderSend(j, s, read);
    case Panic => OrderPanic(j, s);
    case Drain => OrderDrain(j, s);
    case _ =>
  }

  lemma OrderSubmit(j: Journal, s: State, k: nat, source: Source, request: Request)
    requires InOrder(j, s) && k < |s.held|
    ensures InOrder(Recorded(j, Observe(s, Submit(k, source, request))), Next(s, Submit(k, source, request)))
  {
    var before, job :=
      JobsOf(j.delivered) + Completed(s) + OptionSeq(s.active) + j.lost, Job(s.held[k], source, request);
    assert before + s.jobs + [job] == before + (s.jobs + [job]);
  }

  lemma OrderFinish(j: Journal, s: State, latest: nat)
    requires InOrder(j, s) && s.delivering.Some?
    ensures InOrder(Recorded(j, Observe(s, Finish(latest))), Next(s, Finish(latest)))
  {
    var c := s.delivering.value;
    assert JobsOf([c] + s.results) == [c.job] + JobsOf([] + s.results);
    assert JobsOf(j.delivered + [c]) == JobsOf(j.delivered) + [c.job];
    assert JobsOf(j.delivered) + ([c.job] + JobsOf([] + s.results))
      == JobsOf(j.delivered + [c]) + JobsOf([] + s.results);
  }

  lemma OrderTake(j: Journal, s: State)
    requires InOrder(j, s) && s.delivering.None?
    ensures InOrder(Recorded(j, Observe(s, Take)), Next(s, Take))
  {
    if s.results != [] { assert [s.results[0]] + s.results[1..] == [] + s.results; }
  }

  lemma OrderFetch(j: Journal, s: State)
    requires InOrder(j, s) && Enabled(s, Fetch)
    ensures InOrder(Recorded(j, Observe(s, Fetch)), Next(s, Fetch))
  {
    var before := JobsOf(j.delivered) + Completed(s);
    assert before + [] + [] + s.jobs == before + [s.jobs[0]] + [] + s.jobs[1..];
  }

  lemma OrderSend(j: Journal, s: State, read: Result<nat, nat>)
    requires InOrder(j, s) && Enabled(s, Send(read))
    ensures InOrder(Recorded(j, Observe(s, Send(read))), Next(s, Send(read)))
  {
    var d, c := OptionSeq(s.delivering), Completion(s.active.value, read);
    assert JobsOf(d + (s.results + [c])) == JobsOf(d + s.results) + [s.active.value];
    assert JobsOf(j.delivered) + (Completed(s) + [s.active.value]) + []
      == JobsOf(j.delivered) + Completed(s) + [s.active.value];
  }

  lemma OrderPanic(j: Journal, s: State)
    requires InOrder(j, s) && s.worker.Running?
    ensures InOrder(Recorded(j, Observe(s, Panic)), Next(s, Panic))
  {
    var before, lost := JobsOf(j.delivered) + Completed(s), OptionSeq(s.active);
    assert before + lost + [] + s.jobs == before + [] + ([] + lost) + s.jobs;
  }

  lemma OrderDrain(j: Journal, s: State)
    requires InOrder(j, s) && Enabled(s, Drain)
    ensures InOrder(Recorded(j, Observe(s, Drain)), Next(s, Drain))
  {
    var before := JobsOf(j.delivered) + Completed(s) + OptionSeq(s.active);
    assert before + j.lost + s.jobs == before + (j.lost + [s.jobs[0]]) + s.jobs[1..];
  }

  lemma {:induction false} RunInOrder(capacity: NonZero32, run: seq<Step>)
    ensures InOrder(JournalOf(Initial(capacity), run), After(Initial(capacity), run))
  {
    if run != [] {
      var n := |run| - 1;
      RunInOrder(capacity, run[..n]);
      var s := After(Initial(capacity), run[..n]);
      if Enabled(s, run[n]) { OrderStep(JournalOf(Initial(capacity), run[..n]), s, run[n]); }
    }
  }

  /** Deliveries come in submission order, each for its own job; nothing is delivered twice or invented. */
  lemma {:induction false} DeliveredInSubmissionOrder(capacity: NonZero32, run: seq<Step>, k: nat)
    requires k < |JournalOf(Initial(capacity), run).delivered|
    ensures var j := JournalOf(Initial(capacity), run);
      |j.delivered| <= |j.accepted| && j.delivered[k].job == j.accepted[k]
  {
    RunInOrder(capacity, run);
  }

  lemma {:induction false} InFlightWhileRunning(j: Journal, s: State)
    requires InOrder(j, s) && s.worker.Running?
    ensures j.accepted == JobsOf(j.delivered) + InFlight(s)
  {
    Regroup(JobsOf(j.delivered), Completed(s), OptionSeq(s.active), s.jobs);
  }

  lemma Regroup<T>(a: seq<T>, b: seq<T>, c: seq<T>, d: seq<T>)
    ensures a + b + c + [] + d == a + (b + c + d)
  {
  }

  /** While the worker runs, whatever was admitted is delivered or still in flight. */
  lemma {:induction false} NothingLostWhileRunning(capacity: NonZero32, run: seq<Step>)
    requires After(Initial(capacity), run).worker.Running?
    ensures var j := JournalOf(Initial(capacity), run);
      j.accepted == JobsOf(j.delivered) + InFlight(After(Initial(capacity), run))
  {
    RunInOrder(capacity, run);
    InFlightWhileRunning(JournalOf(Initial(capacity), run), After(Initial(capacity), run));
  }

  // ----- delivery -----

  datatype ObservationError =
    | InvalidRequest
    | NoCapacity(capacity: nat)
    | Disconnected
    | Renderer(code: nat)
    | CameraMismatch(requested: nat, rendered: nat)
    | SourceRevisionMismatch(requested: nat, rendered: nat)
    | SourceRevisionAhead(source: nat, latest: nat)
    | InvalidDimensions
    | PixelLimitExceeded
    | InvalidStaleness
    | MetadataTooLarge

  datatype Metadata = Metadata(
    observationId: nat, sceneRevision: nat, frameId: nat, cameraId: nat, kind: Kind,
    dimensions: Option<(NonZero32, NonZero32)>, quality: nat, latestKnownRevision: nat, revisionsBehind: nat)

  datatype Observation = Observation(metadata: Metadata, pixels: nat)

  const REQUEST_BYTES: nat := 44

  function MetadataBytes(m: Metadata): nat { 85 + (if m.dimensions.Some? then 8 else 0) }

  function ValidateMetadata(m: Metadata, limits: RuntimeLimits): Option<ObservationError> {
    if (m.kind != Visibility) != m.dimensions.Some? then Some(InvalidDimensions)
    else if m.dimensions.Some? &&
      (m.dimensions.value.0 > limits.maxObservationWidth || m.dimensions.value.1 > limits.maxObservationHeight ||
       m.dimensions.value.0 * m.dimensions.value.1 > limits.maxObservationPixels) then Some(PixelLimitExceeded)
    else if m.latestKnownRevision - m.sceneRevision != m.revisionsBehind then Some(InvalidStaleness)
    else if MetadataBytes(m) > limits.maxDecodedBytes then Some(MetadataTooLarge)
    else None
  }

  function CompleteObservation(c: Completion, latest: nat, limits: RuntimeLimits)
    : Result<Observation, ObservationError>
  {
    var request, source := c.job.request, c.job.source;
    if c.read.Err? then Err(Renderer(c.read.error))
    else if request.cameraId != source.cameraId then Err(CameraMismatch(request.cameraId, source.cameraId))
    else if request.sceneRevision != source.sceneRevision then
      Err(SourceRevisionMismatch(request.sceneRevision, source.sceneRevision))
    else if latest < source.sceneRevision then Err(SourceRevisionAhead(source.sceneRevision, latest))
    else
      var m := Metadata(request.observationId, source.sceneRevision, source.frameId, source.cameraId, request.kind,
                 if request.kind != Visibility then Some((source.width, source.height)) else None,
                 request.quality, latest, latest - source.sceneRevision);
      var invalid := ValidateMetadata(m, limits);
      if invalid.Some? then Err(invalid.value) else Ok(Observation(m, c.read.value))
  }

  predicate SizesFit(request: Request, source: Source, limits: RuntimeLimits) {
    if request.kind == Visibility then 85 <= limits.maxDecodedBytes
    else
      93 <= limits.maxDecodedBytes &&
      source.width <= limits.maxObservationWidth && source.height <= limits.maxObservationHeight &&
      source.width * source.height <= limits.maxObservationPixels
  }

  /**
   * `try_submit`: refuse a request the frame cannot answer, then reserve and submit.
   */
  function TrySubmit(s: State, source: Source, request: Request, limits: RuntimeLimits)
    : Result<State, ObservationError>
  {
    if REQUEST_BYTES > limits.maxDecodedBytes then Err(InvalidRequest)
    else if request.cameraId != source.cameraId then Err(CameraMismatch(request.cameraId, source.cameraId))
    else if request.sceneRevision != source.sceneRevision then
      Err(SourceRevisionMismatch(request.sceneRevision, source.sceneRevision))
    else if !CanAcquire(s.slots) then Err(NoCapacity(s.slots.capacity))
    else
      var t := Next(s, Reserve);
      match Observe(t, Submit(|t.held| - 1, source, request))
      case Accepted(_) => Ok(Next(t, Submit(|t.held| - 1, source, request)))
      case ChannelFull => Err(NoCapacity(s.slots.capacity))
      case _ => Err(Disconnected)
  }

  /** Admission succeeds exactly when the request matches its frame, a slot is free and the worker lives. */
  lemma {:induction false} TrySubmitAdmitsIff(s: State, source: Source, request: Request, limits: RuntimeLimits)
    requires Inv(s)
    ensures TrySubmit(s, source, request, limits).Ok? <==>
      (REQUEST_BYTES <= limits.maxDecodedBytes && request.cameraId == source.cameraId &&
       request.sceneRevision == source.sceneRevision && |s.slots.pending| < s.slots.capacity && !s.worker.Gone?)
    ensures TrySubmit(s, source, request, limits).Ok? ==>
      var t := TrySubmit(s, source, request, limits).value;
      t.held == s.held && InFlight(t) == InFlight(s) + [Job(NextPermit(s.slots), source, request)] && Inv(t)
  {
    if CanAcquire(s.slots) {
      var t := Next(s, Reserve);
      ReserveKeepsInv(s);
      ChannelNeverFull(t, |t.held| - 1, source, request);
      SubmitKeepsInv(t, |t.held| - 1, source, request);
      InFlightStep(t, Submit(|t.held| - 1, source, request));
      assert t.held[..|t.held| - 1] + t.held[|t.held|..] == s.held;
      assert InFlight(t) == InFlight(s);
    }
  }

  /** Exactly when a submission is refused, and for which reason. */
  lemma {:induction false} TrySubmitRefusedExactly(
    s: State, source: Source, request: Request, limits: RuntimeLimits)
    requires Inv(s)
    ensures var r := TrySubmit(s, source, request, limits);
      var sized := REQUEST_BYTES <= limits.maxDecodedBytes;
      && (r == Err(InvalidRequest) <==> !sized)
      && (r == Err(CameraMismatch(request.cameraId, source.cameraId)) <==>
          sized && request.cameraId != source.cameraId)
      && (r == Err(SourceRevisionMismatch(request.sceneRevision, source.sceneRevision)) <==>
          sized && request.cameraId == source.cameraId && request.sceneRevision != source.sceneRevision)
      && (r == Err(NoCapacity(s.slots.capacity)) <==>
          sized && Matches(source, request) && |s.slots.pending| >= s.slots.capacity)
      && (r == Err(Disconnected) <==>
          sized && Matches(source, request) && |s.slots.pending| < s.slots.capacity && s.worker.Gone?)
  {
    TrySubmitAdmitsIff(s, source, request, limits);
    if CanAcquire(s.slots) {
      var t := Next(s, Reserve);
      ReserveKeepsInv(s);
      ChannelNeverFull(t, |t.held| - 1, source, request);
    }
  }

  /** The answer repeats what its request asked for and what its frame is, with the staleness against `latest`. */
  predicate DescribesJob(m: Metadata, request: Request, source: Source, latest: nat) {
    && m.observationId == request.observationId && m.kind == request.kind && m.quality == request.quality
    && m.cameraId == request.cameraId == source.cameraId
    && m.sceneRevision == request.sceneRevision == source.sceneRevision && m.frameId == source.frameId
    && m.latestKnownRevision == latest == m.sceneRevision + m.revisionsBehind
    && (if request.kind == Visibility then m.dimensions.None? else m.dimensions == Some((source.width, source.height)))
  }

  /**
   * A job admitted with its own frame's camera and revision is answered in full exactly when the readback
   * succeeded, the caller is not behind the frame, and the sizes fit; the answer then describes its own request
   * and frame, and every refusal names the first reason.
   */
  lemma {:induction false} DeliveredExactly(c: Completion, latest: nat, limits: RuntimeLimits)
    requires c.job.request.cameraId == c.job.source.cameraId
    requires c.job.request.sceneRevision == c.job.source.sceneRevision
    ensures var r := CompleteObservation(c, latest, limits);
      && (r.Ok? <==>
            c.read.Ok? && c.job.source.sceneRevision <= latest && SizesFit(c.job.request, c.job.source, limits))
      && (r.Ok? ==>
          r.value.pixels == c.read.value && DescribesJob(r.value.metadata, c.job.request, c.job.source, latest))
      && (r.Err? && r.error.Renderer? <==> c.read.Err?)
      && (c.read.Err? ==> r == Err(Renderer(c.read.error)))
      && (r == Err(SourceRevisionAhead(c.job.source.sceneRevision, latest)) <==>
          c.read.Ok? && latest < c.job.source.sceneRevision)
      && (r.Err? ==> r.error.Renderer? || r.error.SourceRevisionAhead? || r.error.PixelLimitExceeded?
                     || r.error.MetadataTooLarge?)
  {
  }

  // ----- deliveries of a run -----

  predicate Matches(source: Source, request: Request) {
    request.cameraId == source.cameraId && request.sceneRevision == source.sceneRevision
  }

  /** Every submission of the run pairs a request with a frame of its camera and revision. */
  ghost predicate SubmitsMatching(run: seq<Step>) {
    forall i | 0 <= i < |run| && run[i].Submit? :: Matches(run[i].source, run[i].request)
  }

  lemma {:induction false} AcceptedMatch(s: State, run: seq<Step>, k: nat)
    requires SubmitsMatching(run) && k < |JournalOf(s, run).accepted|
    ensures var job := JournalOf(s, run).accepted[k]; Matches(job.source, job.request)
  {
    var n := |run| - 1;
    if k < |JournalOf(s, run[..n]).accepted| { AcceptedMatch(s, run[..n], k); }
  }

  /**
   * In every run of matching submissions the k-th delivery answers the k-th accepted request: in that request's own
   * terms, with its frame and exact staleness, if the readback succeeded, the caller is not behind and sizes fit, and
   * with an error that names the reason otherwise.
   */
  lemma {:induction false} RunAnswersItsRequests(
    capacity: NonZero32, run: seq<Step>, k: nat, latest: nat, limits: RuntimeLimits)
    requires SubmitsMatching(run) && k < |JournalOf(Initial(capacity), run).delivered|
    ensures k < |JournalOf(Initial(capacity), run).accepted|
    ensures var j := JournalOf(Initial(capacity), run);
      var job, c := j.accepted[k], j.delivered[k];
      var r := CompleteObservation(c, latest, limits);
      && (r.Ok? <==> c.read.Ok? && job.source.sceneRevision <= latest && SizesFit(job.request, job.source, limits))
      && (r.Ok? ==>
          r.value.pixels == c.read.value && DescribesJob(r.value.metadata, job.request, job.source, latest))
      && (r.Err? ==> r.error.Renderer? || r.error.SourceRevisionAhead? || r.error.PixelLimitExceeded?
                     || r.error.MetadataTooLarge?)
  {
    DeliveredInSubmissionOrder(capacity, run, k);
    AcceptedMatch(Initial(capacity), run, k);
    DeliveredExactly(JournalOf(Initial(capacity), run).delivered[k], latest, limits);
  }
}
