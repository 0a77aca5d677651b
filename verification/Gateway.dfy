/** The bounded command gateway (crates/cogniform-engine/src/gateway.rs). */
module Gateway {
  import opened Machine
  import opened Protocol
  import opened CompilationReport
  import opened LimitOrder

  datatype Command = PatchCommand(patch: Patch) | ImaginationCommand(imagination: Imagination) {
    function Key(): nat { if PatchCommand? then patch.idempotencyKey else imagination.idempotencyKey }
    function Delivery(): Delivery { if PatchCommand? then patch.delivery else imagination.delivery }
    function SupersessionKey(): Option<Text> {
      if Delivery().LatestWins? then Some(Delivery().supersessionKey) else None
    }
  }

  /** A command with the SHA-256 of its canonical encoding; equal digests are all the gateway compares. */
  datatype Record = Record(command: Command, fingerprint: nat) {
    function Key(): nat { command.Key() }
    function SupersessionKey(): Option<Text> { command.SupersessionKey() }
  }

  datatype ApplyStatus = Applied | IdempotentReplay

  datatype Receipt = Receipt(
    transactionId: nat, idempotencyKey: nat, status: ApplyStatus, previousRevision: nat, newRevision: nat,
    operationCount: nat, estimatedVisibleFrame: nat)

  datatype Response =
    | PatchApplied(receipt: Receipt)
    | ImaginationProcessed(compilation: CompilationResult, outcome: Option<Receipt>)
  {
    /** `as_replayed`: only the receipt status changes. */
    function AsReplayed(): Response {
      match this
      case PatchApplied(receipt) => PatchApplied(receipt.(status := IdempotentReplay))
      case ImaginationProcessed(c, Some(receipt)) => ImaginationProcessed(c, Some(receipt.(status := IdempotentReplay)))
      case ImaginationProcessed(_, None) => this
    }
  }

  datatype Admission =
    | Queued(key: nat)
    | AlreadyQueued(key: nat)
    | Superseded(key: nat, supersededKey: nat)
    | Dropped(key: nat)
    | Replayed(response: Response)

  datatype GatewayError =
    | IdempotencyConflict(key: nat)
    | CommandCapacityExceeded(capacity: nat)
    | IdempotencyCapacityExceeded
    | InvalidConfig
    | EngineFailed

  datatype Completed = Completed(fingerprint: nat, response: Response)

  datatype State = State(
    capacity: NonZero32, idempotencyCapacity: NonZero32, limits: RuntimeLimits, compilationLimits: CompilationLimits,
    entries: seq<Record>, completed: map<nat, Completed>,
    admitted: nat, superseded: nat, dropped: nat, rejected: nat)

  // ----- one step, as a function -----

  function FirstWithKey(entries: seq<Record>, key: nat): Option<nat> {
    if entries == [] then None
    else if entries[0].Key() == key then Some(0)
    else match FirstWithKey(entries[1..], key) case None => None case Some(i) => Some(i + 1)
  }

  function FirstSuperseding(entries: seq<Record>, key: Text): Option<nat> {
    if entries == [] then None
    else if entries[0].SupersessionKey() == Some(key) then Some(0)
    else match FirstSuperseding(entries[1..], key) case None => None case Some(i) => Some(i + 1)
  }

  lemma {:induction false} FirstWithKeyIs(entries: seq<Record>, key: nat)
    ensures match FirstWithKey(entries, key)
      case Some(i) => i < |entries| && entries[i].Key() == key && forall j | 0 <= j < i :: entries[j].Key() != key
      case None => forall j | 0 <= j < |entries| :: entries[j].Key() != key
  {
    if entries != [] {
      FirstWithKeyIs(entries[1..], key);
      assert forall j | 0 < j < |entries| :: entries[j] == entries[1..][j - 1];
    }
  }

  lemma {:induction false} FirstSupersedingIs(entries: seq<Record>, key: Text)
    ensures match FirstSuperseding(entries, key)
      case Some(i) =>
        && i < |entries| && entries[i].SupersessionKey() == Some(key)
        && forall j | 0 <= j < i :: entries[j].SupersessionKey() != Some(key)
      case None => forall j | 0 <= j < |entries| :: entries[j].SupersessionKey() != Some(key)
  {
    if entries != [] {
      FirstSupersedingIs(entries[1..], key);
      assert forall j | 0 < j < |entries| :: entries[j] == entries[1..][j - 1];
    }
  }

  datatype Admit = Admit(state: State, result: Result<Admission, GatewayError>)

  /** The entry that a latest-wins command replaces. */
  function Victim(entries: seq<Record>, r: Record): Option<nat> {
    match r.SupersessionKey() case None => None case Some(k) => FirstSuperseding(entries, k)
  }

  /** `CommandQueue::admit` after the replay cache was consulted. */
  function AdmitQueued(s: State, r: Record): Admit {
    var depth := Sat32(|s.entries|);
    var hasRoom := Sat32(|s.completed|) + depth < s.idempotencyCapacity;
    var existing := FirstWithKey(s.entries, r.Key());
    FirstWithKeyIs(s.entries, r.Key());
    if existing.Some? then
      Admit(s, if s.entries[existing.value].fingerprint == r.fingerprint then Ok(AlreadyQueued(r.Key()))
               else Err(IdempotencyConflict(r.Key())))
    else if Victim(s.entries, r).Some? then
      var at := Victim(s.entries, r).value;
      FirstSupersedingIs(s.entries, r.SupersessionKey().value);
      Admit(s.(entries := s.entries[at := r], superseded := Sat64(s.superseded + 1)),
        Ok(Superseded(r.Key(), s.entries[at].Key())))
    else if (depth >= s.capacity || !hasRoom) && r.command.Delivery().BestEffort? then
      Admit(s.(dropped := Sat64(s.dropped + 1)), Ok(Dropped(r.Key())))
    else if depth >= s.capacity then
      Admit(s.(rejected := Sat64(s.rejected + 1)), Err(CommandCapacityExceeded(s.capacity)))
    else if !hasRoom then
      Admit(s.(rejected := Sat64(s.rejected + 1)), Err(IdempotencyCapacityExceeded))
    else
      Admit(s.(entries := s.entries + [r], admitted := Sat64(s.admitted + 1)), Ok(Queued(r.Key())))
  }

  /** `LocalGateway::admit`. */
  function AdmitRecord(s: State, r: Record): Admit {
    if r.Key() in s.completed then
      var recorded := s.completed[r.Key()];
      Admit(s, if recorded.fingerprint != r.fingerprint then Err(IdempotencyConflict(r.Key()))
               else Ok(Replayed(recorded.response.AsReplayed())))
    else AdmitQueued(s, r)
  }

  /** `process_next`, given what the engine answers for the front command. */
  function Process(s: State, answer: Result<Response, GatewayError>): State {
    if s.entries == [] then s
    else
      var popped := s.(entries := s.entries[1..]);
      match answer
      case Err(_) => popped
      case Ok(response) =>
        popped.(completed := s.completed[s.entries[0].Key() := Completed(s.entries[0].fingerprint, response)])
  }

  /** `configure_compilation_limits`. */
  function Configure(s: State, limits: CompilationLimits): State {
    if s.entries == [] && CompilationFit(limits, DerivedLimits(s.limits)) then s.(compilationLimits := limits) else s
  }

  /** Queued keys are pairwise distinct, and so are queued supersession keys. */
  ghost predicate Distinct(entries: seq<Record>) {
    && (forall i, j | 0 <= i < j < |entries| :: entries[i].Key() != entries[j].Key())
    && (forall i, j | 0 <= i < j < |entries| && entries[i].SupersessionKey().Some? ::
          entries[i].SupersessionKey() != entries[j].SupersessionKey())
  }

  /** What holds in every reachable state. */
  ghost predicate Inv(s: State) {
    && Distinct(s.entries)
    && (forall i | 0 <= i < |s.entries| :: s.entries[i].Key() !in s.completed)
    && |s.entries| <= s.capacity && |s.completed| + |s.entries| <= s.idempotencyCapacity
    && CompilationFit(s.compilationLimits, DerivedLimits(s.limits))
  }

  // ----- what a submission is answered -----

  /** A queued command that a latest-wins command replaces. */
  predicate Replaces(r: Record, queued: Record) {
    && r.command.Delivery().LatestWins? && queued.command.Delivery().LatestWins?
    && queued.command.Delivery().supersessionKey == r.command.Delivery().supersessionKey
  }

  ghost predicate KeyQueued(s: State, key: nat) { exists i | 0 <= i < |s.entries| :: s.entries[i].Key() == key }

  ghost predicate TargetQueued(s: State, r: Record) {
    exists i | 0 <= i < |s.entries| :: Replaces(r, s.entries[i])
  }

  /** Neither completed nor queued. */
  ghost predicate New(s: State, r: Record) { r.Key() !in s.completed && !KeyQueued(s, r.Key()) }

  predicate QueueFull(s: State) { |s.entries| >= s.capacity }

  predicate CacheFull(s: State) { |s.completed| + |s.entries| >= s.idempotencyCapacity }

  /** A command that would take a slot of its own. */
  ghost predicate NeedsSlot(s: State, r: Record) { New(s, r) && !TargetQueued(s, r) }

  /** `r` was submitted before: the same key, with the same fingerprint or with another one. */
  ghost predicate QueuedBefore(s: State, r: Record, same: bool) {
    exists i | 0 <= i < |s.entries| ::
      s.entries[i].Key() == r.Key() && (s.entries[i].fingerprint == r.fingerprint) == same
  }

  predicate CompletedBefore(s: State, r: Record, same: bool) {
    r.Key() in s.completed && (s.completed[r.Key()].fingerprint == r.fingerprint) == same
  }

  /** The recorded receipt marked as a replay: every other field is the recorded one. */
  predicate ReceiptReplayed(recorded: Receipt, answer: Receipt) {
    && answer.status.IdempotentReplay?
    && answer.transactionId == recorded.transactionId && answer.idempotencyKey == recorded.idempotencyKey
    && answer.previousRevision == recorded.previousRevision && answer.newRevision == recorded.newRevision
    && answer.operationCount == recorded.operationCount
    && answer.estimatedVisibleFrame == recorded.estimatedVisibleFrame
  }

  predicate Replays(recorded: Response, answer: Response) {
    match recorded
    case PatchApplied(receipt) => answer.PatchApplied? && ReceiptReplayed(receipt, answer.receipt)
    case ImaginationProcessed(compilation, outcome) =>
      && answer.ImaginationProcessed? && answer.compilation == compilation
      && (answer.outcome.Some? <==> outcome.Some?)
      && (outcome.Some? ==> ReceiptReplayed(outcome.value, answer.outcome.value))
  }

  /** The queued command at `at` was replaced by `r`, and nothing else changed. */
  predicate ReplacedAt(s: State, r: Record, t: State, discarded: nat, at: nat) {
    && at < |s.entries| && Replaces(r, s.entries[at]) && discarded == s.entries[at].Key()
    && t == s.(entries := s.entries[at := r], superseded := Sat64(s.superseded + 1))
  }

  /** Exactly when a submission is answered with each success. */
  ghost predicate Admits(s: State, r: Record, result: Result<Admission, GatewayError>) {
    && (result == Ok(Queued(r.Key())) <==> NeedsSlot(s, r) && !QueueFull(s) && !CacheFull(s))
    && (result == Ok(AlreadyQueued(r.Key())) <==> QueuedBefore(s, r, true))
    && (result.Ok? && result.value.Superseded? <==> New(s, r) && TargetQueued(s, r))
    && (result == Ok(Dropped(r.Key())) <==>
        NeedsSlot(s, r) && (QueueFull(s) || CacheFull(s)) && r.command.Delivery().BestEffort?)
    && (result.Ok? && result.value.Replayed? <==> CompletedBefore(s, r, true))
  }

  /** Exactly when a submission is refused, and how. */
  ghost predicate Refuses(s: State, r: Record, result: Result<Admission, GatewayError>) {
    && (result == Err(IdempotencyConflict(r.Key())) <==> QueuedBefore(s, r, false) || CompletedBefore(s, r, false))
    && (result == Err(CommandCapacityExceeded(s.capacity)) <==>
        NeedsSlot(s, r) && QueueFull(s) && !r.command.Delivery().BestEffort?)
    && (result == Err(IdempotencyCapacityExceeded) <==>
        NeedsSlot(s, r) && !QueueFull(s) && CacheFull(s) && !r.command.Delivery().BestEffort?)
  }

  /** What a submission with this answer leaves behind. */
  ghost predicate Leaves(s: State, r: Record, t: State, result: Result<Admission, GatewayError>) {
    match result
    case Ok(Queued(key)) => key == r.Key() && t == s.(entries := s.entries + [r], admitted := Sat64(s.admitted + 1))
    case Ok(AlreadyQueued(key)) => key == r.Key() && t == s
    case Ok(Superseded(key, discarded)) => key == r.Key() && exists at :: ReplacedAt(s, r, t, discarded, at)
    case Ok(Dropped(key)) => key == r.Key() && t == s.(dropped := Sat64(s.dropped + 1))
    case Ok(Replayed(response)) =>
      t == s && r.Key() in s.completed && Replays(s.completed[r.Key()].response, response)
    case Err(IdempotencyConflict(key)) => key == r.Key() && t == s
    case Err(CommandCapacityExceeded(_)) => t == s.(rejected := Sat64(s.rejected + 1))
    case Err(IdempotencyCapacityExceeded) => t == s.(rejected := Sat64(s.rejected + 1))
    case Err(_) => false
  }

  /** `r` submitted in `s` is answered `result` and leaves `t`. */
  ghost predicate Answers(s: State, r: Record, t: State, result: Result<Admission, GatewayError>) {
    Admits(s, r, result) && Refuses(s, r, result) && Leaves(s, r, t, result)
  }

  lemma {:induction false} FoundWithKey(s: State, r: Record)
    requires Distinct(s.entries)
    ensures KeyQueued(s, r.Key()) <==> FirstWithKey(s.entries, r.Key()).Some?
    ensures match FirstWithKey(s.entries, r.Key())
      case None => !QueuedBefore(s, r, true) && !QueuedBefore(s, r, false)
      case Some(i) =>
        && i < |s.entries|
        && (QueuedBefore(s, r, true) <==> s.entries[i].fingerprint == r.fingerprint)
        && (QueuedBefore(s, r, false) <==> s.entries[i].fingerprint != r.fingerprint)
  {
    FirstWithKeyIs(s.entries, r.Key());
  }

  lemma {:induction false} FoundTarget(s: State, r: Record)
    ensures TargetQueued(s, r) <==> Victim(s.entries, r).Some?
    ensures Victim(s.entries, r).Some? ==>
      Victim(s.entries, r).value < |s.entries| && Replaces(r, s.entries[Victim(s.entries, r).value])
  {
    if r.SupersessionKey().Some? { FirstSupersedingIs(s.entries, r.SupersessionKey().value); }
  }

  /** Every submission is answered exactly as its key, its supersession key and the room left demand. */
  lemma {:induction false} AdmitExactly(s: State, r: Record)
    requires Inv(s)
    ensures Answers(s, r, AdmitRecord(s, r).state, AdmitRecord(s, r).result)
  {
    FoundWithKey(s, r);
    FoundTarget(s, r);
    if New(s, r) && TargetQueued(s, r) {
      var admit, at := AdmitRecord(s, r), Victim(s.entries, r).value;
      assert ReplacedAt(s, r, admit.state, s.entries[at].Key(), at);
    }
  }

  lemma {:induction false} AppendKeepsInv(s: State, r: Record, t: State)
    requires Inv(s) && NeedsSlot(s, r) && !QueueFull(s) && !CacheFull(s)
    requires t == s.(entries := s.entries + [r], admitted := Sat64(s.admitted + 1))
    ensures Inv(t)
  {
    forall i | 0 <= i < |s.entries| ensures s.entries[i].Key() != r.Key() && !Replaces(r, s.entries[i]) {}
  }

  lemma {:induction false} ReplaceKeepsInv(s: State, r: Record, t: State, discarded: nat, at: nat)
    requires Inv(s) && New(s, r) && ReplacedAt(s, r, t, discarded, at)
    ensures Inv(t)
  {
    forall i | 0 <= i < |s.entries| ensures s.entries[i].Key() != r.Key() {}
  }

  lemma {:induction false} AdmitKeepsInv(s: State, r: Record)
    requires Inv(s)
    ensures Inv(AdmitRecord(s, r).state)
  {
    AdmitExactly(s, r);
    AnswerKeepsInv(s, r, AdmitRecord(s, r).state, AdmitRecord(s, r).result);
  }

  lemma {:induction false} AnswerKeepsInv(s: State, r: Record, t: State, result: Result<Admission, GatewayError>)
    requires Inv(s) && Answers(s, r, t, result)
    ensures Inv(t)
  {
    if result.Ok? && result.value.Queued? { AppendKeepsInv(s, r, t); }
    if result.Ok? && result.value.Superseded? {
      var at :| ReplacedAt(s, r, t, result.value.supersededKey, at);
      ReplaceKeepsInv(s, r, t, result.value.supersededKey, at);
    }
  }

  lemma {:induction false} ProcessKeepsInv(s: State, answer: Result<Response, GatewayError>)
    requires Inv(s)
    ensures Inv(Process(s, answer))
    ensures s.entries != [] ==> |s.completed| + |s.entries[1..]| < s.idempotencyCapacity
  {
    if s.entries != [] && answer.Ok? {
      var key, t := s.entries[0].Key(), Process(s, answer);
      assert t.completed.Keys == s.completed.Keys + {key};
    }
  }

  /** `validate_config`: the queue fits the protocol, the cache covers the queue, and the world can back the cache. */
  predicate ConfigAccepted(capacity: NonZero32, idempotencyCapacity: NonZero32, limits: RuntimeLimits, available: nat) {
    capacity <= limits.maxQueueCapacity && capacity <= idempotencyCapacity <= available
  }

  // ----- the object -----

  class LocalGateway {
    const capacity: NonZero32
    const idempotencyCapacity: NonZero32
    const limits: RuntimeLimits
    var compilationLimits: CompilationLimits
    var entries: seq<Record>
    var completed: map<nat, Completed>
    var admitted: nat
    var superseded: nat
    var dropped: nat
    var rejected: nat

    function Value(): State
      reads this
    {
      State(capacity, idempotencyCapacity, limits, compilationLimits, entries, completed, admitted, superseded, dropped,
        rejected)
    }

    /** `LocalGateway::new` for an accepted configuration. */
    constructor (capacity: NonZero32, idempotencyCapacity: NonZero32, limits: RuntimeLimits, availableRecords: nat)
      requires ConfigAccepted(capacity, idempotencyCapacity, limits, availableRecords)
      ensures Inv(Value())
      ensures Value() == State(capacity, idempotencyCapacity, limits, DerivedLimits(limits), [], map[], 0, 0, 0, 0)
    {
      this.capacity, this.idempotencyCapacity, this.limits := capacity, idempotencyCapacity, limits;
      compilationLimits := DerivedLimits(limits);
      entries, completed := [], map[];
      admitted, superseded, dropped, rejected := 0, 0, 0, 0;
    }

    method Find(key: nat) returns (at: Option<nat>)
      ensures at == FirstWithKey(entries, key)
    {
      for i := 0 to |entries|
        invariant forall j | 0 <= j < i :: entries[j].Key() != key
      {
        if entries[i].Key() == key {
          FirstWithKeyIs(entries, key);
          return Some(i);
        }
      }
      FirstWithKeyIs(entries, key);
      return None;
    }

    method FindSuperseded(r: Record) returns (at: Option<nat>)
      ensures at == Victim(entries, r)
    {
      if r.SupersessionKey().None? { return None; }
      var key := r.SupersessionKey().value;
      for i := 0 to |entries|
        invariant forall j | 0 <= j < i :: entries[j].SupersessionKey() != Some(key)
      {
        if entries[i].SupersessionKey() == Some(key) {
          FirstSupersedingIs(entries, key);
          return Some(i);
        }
      }
      FirstSupersedingIs(entries, key);
      return None;
    }

    /** One submission, from the replay cache to the queue. */
    method Submit(r: Record) returns (result: Result<Admission, GatewayError>)
      requires Inv(Value())
      modifies this
      ensures Value() == AdmitRecord(old(Value()), r).state && result == AdmitRecord(old(Value()), r).result
      ensures Inv(Value())
      ensures Answers(old(Value()), r, Value(), result)
    {
      AdmitKeepsInv(Value(), r);
      AdmitExactly(Value(), r);
      if r.Key() in completed {
        if completed[r.Key()].fingerprint != r.fingerprint { return Err(IdempotencyConflict(r.Key())); }
        return Ok(Replayed(completed[r.Key()].response.AsReplayed()));
      }
      var depth := Sat32(|entries|);
      var hasRoom := Sat32(|completed|) + depth < idempotencyCapacity;
      var existing := Find(r.Key());
      FirstWithKeyIs(entries, r.Key());
      if existing.Some? {
        if entries[existing.value].fingerprint == r.fingerprint { return Ok(AlreadyQueued(r.Key())); }
        return Err(IdempotencyConflict(r.Key()));
      }
      var victim := FindSuperseded(r);
      if victim.Some? {
        FirstSupersedingIs(entries, r.SupersessionKey().value);
        var discarded := entries[victim.value].Key();
        entries := entries[victim.value := r];
        superseded := Sat64(superseded + 1);
        return Ok(Superseded(r.Key(), discarded));
      }
      if (depth >= capacity || !hasRoom) && r.command.Delivery().BestEffort? {
        dropped := Sat64(dropped + 1);
        return Ok(Dropped(r.Key()));
      }
      if depth >= capacity {
        rejected := Sat64(rejected + 1);
        return Err(CommandCapacityExceeded(capacity));
      }
      if !hasRoom {
        rejected := Sat64(rejected + 1);
        return Err(IdempotencyCapacityExceeded);
      }
      entries := entries + [r];
      admitted := Sat64(admitted + 1);
      return Ok(Queued(r.Key()));
    }

    /** Pops the front command and records the engine's answer; a failed command leaves nothing behind. */
    method ProcessNext(answer: Result<Response, GatewayError>) returns (result: Result<Option<Response>, GatewayError>)
      requires Inv(Value())
      modifies this
      ensures Value() == Process(old(Value()), answer) && Inv(Value())
      ensures result == (if old(entries) == [] then Ok(None)
                         else match answer case Ok(v) => Ok(Some(v)) case Err(e) => Err(e))
      ensures old(entries) == [] ==> Value() == old(Value())
      ensures old(entries) != [] ==> entries == old(entries)[1..]
      ensures old(entries) != [] && answer.Err? ==> completed == old(completed)
      ensures old(entries) != [] && answer.Ok? ==>
        var front := old(entries)[0];
        completed == old(completed)[front.Key() := Completed(front.fingerprint, answer.value)]
    {
      ProcessKeepsInv(Value(), answer);
      if entries == [] { return Ok(None); }
      var record := entries[0];
      entries := entries[1..];
      if answer.Err? { return Err(answer.error); }
      assert |completed| + |entries| < idempotencyCapacity;
      completed := completed[record.Key() := Completed(record.fingerprint, answer.value)];
      return Ok(Some(answer.value));
    }

    method ConfigureCompilationLimits(limits: CompilationLimits) returns (result: Result<(), GatewayError>)
      requires Inv(Value())
      modifies this
      ensures Value() == Configure(old(Value()), limits) && Inv(Value())
      ensures result.Ok? <==> old(entries) == [] && CompilationFit(limits, DerivedLimits(this.limits))
      ensures compilationLimits == (if result.Ok? then limits else old(compilationLimits))
    {
      if entries != [] { return Err(InvalidConfig); }
      if !CompilationFit(limits, DerivedLimits(this.limits)) { return Err(InvalidConfig); }
      compilationLimits := limits;
      return Ok(());
    }
  }
}
