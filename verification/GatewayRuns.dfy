/** What the gateway guarantees over every run of submissions, processing and configuration (gateway.rs). */
module GatewayRuns {
  import opened Machine
  import opened CompilationReport
  import opened Gateway

  /** One call; `Work` carries what the engine answers if there is a command to process. */
  datatype Action =
    | Offer(record: Record)
    | Work(answer: Result<Response, GatewayError>)
    | Rebind(limits: CompilationLimits)

  datatype Event =
    | Offered(result: Result<Admission, GatewayError>)
    | Popped(record: Record, answer: Result<Response, GatewayError>)
    | Quiet

  function Next(s: State, a: Action): State {
    match a
    case Offer(r) => AdmitRecord(s, r).state
    case Work(answer) => Process(s, answer)
    case Rebind(limits) => Configure(s, limits)
  }

  function Observe(s: State, a: Action): Event {
    match a
    case Offer(r) => Offered(AdmitRecord(s, r).result)
    case Work(answer) => if s.entries == [] then Quiet else Popped(s.entries[0], answer)
    case Rebind(_) => Quiet
  }

  function After(s: State, run: seq<Action>): State {
    if run == [] then s else Next(After(s, run[..|run| - 1]), run[|run| - 1])
  }

  /** The event of call `i` in a run. */
  function EventAt(s: State, run: seq<Action>, i: nat): Event
    requires i < |run|
  {
    Observe(After(s, run[..i]), run[i])
  }

  lemma {:induction false} NextKeepsInv(s: State, a: Action)
    requires Inv(s)
    ensures Inv(Next(s, a))
  {
    match a
    case Offer(r) => AdmitKeepsInv(s, r);
    case Work(answer) => ProcessKeepsInv(s, answer);
    case Rebind(limits) =>
  }

  /** Every reachable state keeps the invariant. */
  lemma {:induction false} RunKeepsInv(s: State, run: seq<Action>)
    requires Inv(s)
    ensures Inv(After(s, run))
  {
    if run != [] {
      RunKeepsInv(s, run[..|run| - 1]);
      NextKeepsInv(After(s, run[..|run| - 1]), run[|run| - 1]);
    }
  }

  lemma AfterTake(s: State, run: seq<Action>, i: nat)
    requires i < |run|
    ensures After(s, run[..i + 1]) == Next(After(s, run[..i]), run[i])
  {
    assert run[..i + 1][..i] == run[..i];
  }

  /** Every submission of every run is answered exactly as the state it meets demands. */
  lemma {:induction false} OfferAnswered(s: State, run: seq<Action>, i: nat)
    requires Inv(s) && i < |run| && run[i].Offer?
    ensures EventAt(s, run, i).Offered?
    ensures Answers(After(s, run[..i]), run[i].record, After(s, run[..i + 1]), EventAt(s, run, i).result)
  {
    RunKeepsInv(s, run[..i]);
    AfterTake(s, run, i);
    AdmitExactly(After(s, run[..i]), run[i].record);
  }

  // ----- at most once, then always the recorded answer -----

  ghost predicate Cached(s: State, key: nat, c: Completed) { key in s.completed && s.completed[key] == c }

  /** Nothing is ever removed from or overwritten in the replay cache. */
  lemma {:induction false} CompletedStays(s: State, run: seq<Action>, i: nat, j: nat, key: nat, c: Completed)
    requires Inv(s) && i <= j <= |run| && Cached(After(s, run[..i]), key, c)
    ensures Cached(After(s, run[..j]), key, c)
    decreases j
  {
    if i < j {
      CompletedStays(s, run, i, j - 1, key, c);
      CachedNext(s, run, j - 1, key, c);
    }
  }

  lemma {:induction false} CachedNext(s: State, run: seq<Action>, j: nat, key: nat, c: Completed)
    requires Inv(s) && j < |run| && Cached(After(s, run[..j]), key, c)
    ensures Cached(After(s, run[..j + 1]), key, c)
  {
    RunKeepsInv(s, run[..j]);
    AfterTake(s, run, j);
    CompletedStep(After(s, run[..j]), run[j], key, c);
  }

  lemma {:induction false} CompletedStep(s: State, a: Action, key: nat, c: Completed)
    requires Inv(s) && Cached(s, key, c)
    ensures Cached(Next(s, a), key, c)
  {
  }

  /** Call `i` processed a command with this key successfully. */
  ghost predicate Succeeded(s: State, run: seq<Action>, i: nat, key: nat) {
    i < |run| && EventAt(s, run, i).Popped? && EventAt(s, run, i).answer.Ok? && EventAt(s, run, i).record.Key() == key
  }

  lemma {:induction false} SuccessIsRecorded(s: State, run: seq<Action>, i: nat, key: nat)
    requires Inv(s) && Succeeded(s, run, i, key)
    ensures key !in After(s, run[..i]).completed
    ensures var e := EventAt(s, run, i);
      Cached(After(s, run[..i + 1]), key, Completed(e.record.fingerprint, e.answer.value))
  {
    RunKeepsInv(s, run[..i]);
    AfterTake(s, run, i);
  }

  /** Each idempotency key is applied successfully at most once in a whole run. */
  lemma {:induction false} AppliedAtMostOnce(s: State, run: seq<Action>, i: nat, j: nat, key: nat)
    requires Inv(s) && Succeeded(s, run, i, key) && Succeeded(s, run, j, key)
    ensures i == j
  {
    SuccessIsRecorded(s, run, i, key);
    SuccessIsRecorded(s, run, j, key);
    if i < j { CompletedStays(s, run, i + 1, j, key, After(s, run[..i + 1]).completed[key]); }
    if j < i { CompletedStays(s, run, j + 1, i, key, After(s, run[..j + 1]).completed[key]); }
  }

  /**
   * After a success, every submission with the key gets the recorded answer or a conflict, whatever happens between.
   */
  lemma {:induction false} SuccessIsReplayed(s: State, run: seq<Action>, i: nat, j: nat, key: nat)
    requires Inv(s) && Succeeded(s, run, i, key) && i < j < |run|
    requires run[j].Offer? && run[j].record.Key() == key
    ensures var e := EventAt(s, run, i);
      EventAt(s, run, j) == Offered(
        if run[j].record.fingerprint == e.record.fingerprint then Ok(Replayed(e.answer.value.AsReplayed()))
        else Err(IdempotencyConflict(key)))
    ensures After(s, run[..j + 1]) == After(s, run[..j])
  {
    SuccessIsRecorded(s, run, i, key);
    CompletedStays(s, run, i + 1, j, key, After(s, run[..i + 1]).completed[key]);
    AfterTake(s, run, j);
  }

  // ----- slots -----

  /** Commands popped by a run. */
  function Pops(s: State, run: seq<Action>): nat {
    if run == [] then 0
    else
      var n := |run| - 1;
      Pops(s, run[..n]) + (if Observe(After(s, run[..n]), run[n]).Popped? then 1 else 0)
  }

  /** `r` waits at position `at` under the compilation limits `limits`. */
  ghost predicate Waits(s: State, at: nat, r: Record, limits: CompilationLimits) {
    at < |s.entries| && s.entries[at] == r && s.compilationLimits == limits
  }

  /**
   * A queued command without a supersession key keeps its place: after `p` pops it stands `p` slots
   * further to the front, until it is itself the front command and is popped. While it waits, the
   * compilation limits do not change.
   */
  lemma {:induction false} HoldsItsSlot(s: State, run: seq<Action>, slot: nat)
    requires Inv(s) && slot < |s.entries| && s.entries[slot].SupersessionKey().None? && Pops(s, run) <= slot
    ensures Waits(After(s, run), slot - Pops(s, run), s.entries[slot], s.compilationLimits)
  {
    HoldsFrom(s, run, slot, s.entries[slot], s.compilationLimits);
  }

  lemma {:induction false} HoldsFrom(s: State, run: seq<Action>, slot: nat, r: Record, limits: CompilationLimits)
    requires Inv(s) && Waits(s, slot, r, limits) && r.SupersessionKey().None? && Pops(s, run) <= slot
    ensures Waits(After(s, run), slot - Pops(s, run), r, limits)
  {
    if run != [] {
      var front := run[..|run| - 1];
      HoldsFrom(s, front, slot, r, limits);
      HoldsNext(s, front, run[|run| - 1], slot, r, limits);
      assert front + [run[|run| - 1]] == run;
    }
  }

  lemma {:induction false} HoldsNext(
    s: State, run: seq<Action>, a: Action, slot: nat, r: Record, limits: CompilationLimits)
    requires Inv(s) && Pops(s, run) <= slot && Waits(After(s, run), slot - Pops(s, run), r, limits)
    requires r.SupersessionKey().None? && Pops(s, run + [a]) <= slot
    ensures Waits(After(s, run + [a]), slot - Pops(s, run + [a]), r, limits)
  {
    RunKeepsInv(s, run);
    assert (run + [a])[..|run|] == run;
    SlotStep(After(s, run), a, slot - Pops(s, run), r, limits);
  }

  lemma {:induction false} SlotStep(s: State, a: Action, at: nat, r: Record, limits: CompilationLimits)
    requires Inv(s) && Waits(s, at, r, limits) && r.SupersessionKey().None?
    requires Observe(s, a).Popped? ==> at > 0
    ensures Waits(Next(s, a), if Observe(s, a).Popped? then at - 1 else at, r, limits)
  {
    if a.Offer? && a.record.SupersessionKey().Some? {
      FirstSupersedingIs(s.entries, a.record.SupersessionKey().value);
    }
  }

  lemma FrontIsPopped(s: State, a: Action, r: Record, limits: CompilationLimits)
    requires Observe(s, a).Popped? && Waits(s, 0, r, limits)
    ensures Observe(s, a).record == r
  {
  }

  /** The pop after `slot` earlier ones takes exactly that command. */
  lemma {:induction false} LeavesInOrder(s: State, run: seq<Action>, slot: nat, i: nat)
    requires Inv(s) && slot < |s.entries| && s.entries[slot].SupersessionKey().None?
    requires i < |run| && Pops(s, run[..i]) == slot && EventAt(s, run, i).Popped?
    ensures EventAt(s, run, i).record == s.entries[slot]
  {
    HoldsItsSlot(s, run[..i], slot);
    FrontIsPopped(After(s, run[..i]), run[i], s.entries[slot], s.compilationLimits);
  }

  // ----- accounting -----

  ghost function CountWhere(s: State, run: seq<Action>, hit: Event -> bool): nat {
    if run == [] then 0
    else
      var n := |run| - 1;
      CountWhere(s, run[..n], hit) + (if hit(Observe(After(s, run[..n]), run[n])) then 1 else 0)
  }

  function IsQueued(e: Event): bool { e.Offered? && e.result.Ok? && e.result.value.Queued? }
  function IsSuperseded(e: Event): bool { e.Offered? && e.result.Ok? && e.result.value.Superseded? }
  function IsDropped(e: Event): bool { e.Offered? && e.result.Ok? && e.result.value.Dropped? }
  function IsRejected(e: Event): bool {
    e.Offered? && e.result.Err?
      && (e.result.error.CommandCapacityExceeded? || e.result.error.IdempotencyCapacityExceeded?)
  }
  function IsFailedPop(e: Event): bool { e.Popped? && e.answer.Err? }

  /** Counters report exactly what happened, up to saturation at the 64-bit maximum. */
  ghost predicate Counted(s: State, admitted: nat, superseded: nat, dropped: nat, rejected: nat, failed: nat) {
    && s.admitted == Sat64(admitted) && s.superseded == Sat64(superseded)
    && s.dropped == Sat64(dropped) && s.rejected == Sat64(rejected)
    && admitted == |s.entries| + |s.completed| + failed
  }

  /** From an empty gateway: admitted commands are queued, completed or failed, and nothing else. */
  lemma {:induction false} CountersExact(s: State, run: seq<Action>)
    requires Inv(s) && Counted(s, 0, 0, 0, 0, 0)
    ensures Counted(After(s, run), CountWhere(s, run, IsQueued), CountWhere(s, run, IsSuperseded),
              CountWhere(s, run, IsDropped), CountWhere(s, run, IsRejected), CountWhere(s, run, IsFailedPop))
  {
    if run != [] {
      var n := |run| - 1;
      CountersExact(s, run[..n]);
      RunKeepsInv(s, run[..n]);
      CountersStep(After(s, run[..n]), run[n], CountWhere(s, run[..n], IsQueued),
        CountWhere(s, run[..n], IsSuperseded), CountWhere(s, run[..n], IsDropped),
        CountWhere(s, run[..n], IsRejected), CountWhere(s, run[..n], IsFailedPop));
    }
  }

  function Bump(n: nat, hit: bool): nat { if hit then n + 1 else n }

  lemma {:induction false} CountersStep(
    s: State, a: Action, admitted: nat, superseded: nat, dropped: nat, rejected: nat, failed: nat)
    requires Inv(s) && Counted(s, admitted, superseded, dropped, rejected, failed)
    ensures var e := Observe(s, a);
      Counted(Next(s, a), Bump(admitted, IsQueued(e)), Bump(superseded, IsSuperseded(e)), Bump(dropped, IsDropped(e)),
        Bump(rejected, IsRejected(e)), Bump(failed, IsFailedPop(e)))
  {
    match a
    case Offer(r) => OfferCounts(s, r);
    case Work(answer) => WorkCounts(s, answer);
    case Rebind(_) =>
  }

  lemma {:induction false} OfferCounts(s: State, r: Record)
    ensures var e, t := Observe(s, Offer(r)), Next(s, Offer(r));
      && t.admitted == (if IsQueued(e) then Sat64(s.admitted + 1) else s.admitted)
      && t.superseded == (if IsSuperseded(e) then Sat64(s.superseded + 1) else s.superseded)
      && t.dropped == (if IsDropped(e) then Sat64(s.dropped + 1) else s.dropped)
      && t.rejected == (if IsRejected(e) then Sat64(s.rejected + 1) else s.rejected)
      && |t.entries| == Bump(|s.entries|, IsQueued(e)) && t.completed == s.completed
  {
    if r.SupersessionKey().Some? { FirstSupersedingIs(s.entries, r.SupersessionKey().value); }
  }

  lemma {:induction false} WorkCounts(s: State, answer: Result<Response, GatewayError>)
    requires Inv(s)
    ensures var e, t := Observe(s, Work(answer)), Next(s, Work(answer));
      && t.admitted == s.admitted && t.superseded == s.superseded && t.dropped == s.dropped && t.rejected == s.rejected
      && |s.entries| + |s.completed| == |t.entries| + |t.completed| + (if IsFailedPop(e) then 1 else 0)
  {
    if s.entries != [] && answer.Ok? {
      assert Process(s, answer).completed.Keys == s.completed.Keys + {s.entries[0].Key()};
    }
  }

  /** Ordered durable work is never dropped, and best-effort work is never rejected for pressure. */
  lemma {:induction false} PressureFollowsDelivery(s: State, run: seq<Action>, i: nat)
    requires Inv(s) && i < |run| && run[i].Offer?
    ensures IsDropped(EventAt(s, run, i)) ==> run[i].record.command.Delivery().BestEffort?
    ensures IsRejected(EventAt(s, run, i)) ==> !run[i].record.command.Delivery().BestEffort?
    ensures IsDropped(EventAt(s, run, i)) || IsRejected(EventAt(s, run, i)) ==>
      var t := After(s, run[..i]);
      |t.entries| == t.capacity || |t.completed| + |t.entries| == t.idempotencyCapacity
  {
    RunKeepsInv(s, run[..i]);
  }
}
