/**
 * The half-duplex session over standard streams (serve_stdio.rs), against any driver, writer and clock.
 * The order of reads, driver calls, writes and flushes is judged by an independent monitor.
 */
module StdioSession {
  import opened Machine

  datatype Phase = AwaitingHello | Active | Closed

  datatype Status = Status(
    phase: Phase, live: nat, pendingPatches: nat, pendingImaginations: nat, pendingObservations: nat)

  datatype ServeError =
    | InputFrameRejected
    | ServiceUnavailable
    | ServiceFailed
    | ExecutorFailed
    | OutputFrameFailed
    | OutputFlushFailed
    | OperationTimedOut
    | SessionEndedBeforeHello
    | SessionEndedBeforeClose

  datatype Input = Arrived(frame: nat) | Rejected

  /**
   * What the driver answers one call: its frames, a newly negotiated configuration, whether the frames hold a fatal
   * service failure, and its status. Each of the first three may be an executor failure.
   */
  datatype Answer = Answer(
    output: Option<seq<nat>>, negotiated: Option<Option<nat>>, fatal: Option<bool>, status: Status)

  datatype Startup = Ready | Unavailable | Broken

  datatype WriteOutcome = Flushes | WriteFails | FlushFails

  /** Everything outside the session: the n-th call to each collaborator gets the n-th answer. */
  datatype World = World(
    inputs: seq<Input>,
    startup: Startup,
    answer: nat -> Answer,
    write: nat -> WriteOutcome,
    lag: nat -> nat,
    clockMax: nat)

  datatype Policy = Policy(poll: nat, timeout: nat)

  const DEFAULT_CONFIG: nat := 0

  // ----- the monitor -----

  datatype Event =
    | Read(config: nat, got: Option<nat>)
    | Handled(frame: nat, output: seq<nat>, live: nat)
    | Advanced(output: seq<nat>, live: nat)
    | Adopted(config: nat)
    | Judged(fatal: bool)
    | Wrote(frame: nat, config: nat)
    | Flushed

  /** The frame read but not yet handled, what is still owed to the peer, and what the driver last said. */
  datatype Ledger = Ledger(
    unhandled: Option<nat>, live: nat, judged: bool, owed: seq<nat>, dirty: bool, fatal: bool, config: nat)

  const FRESH: Ledger := Ledger(None, 0, true, [], false, false, DEFAULT_CONFIG)

  /** Every output frame was written, and the last write was flushed. */
  predicate Written(l: Ledger) { l.owed == [] && !l.dirty }

  /** All output was judged, written and flushed, and none of it was fatal. */
  predicate Delivered(l: Ledger) { l.judged && Written(l) && !l.fatal }

  /** Nothing is unhandled, live or undelivered. */
  predicate Settled(l: Ledger) { l.unhandled.None? && l.live == 0 && Delivered(l) }

  /**
   * A frame is read only when settled, and handled once. The driver is advanced only while work is live. The output of
   * each driver call is judged once, before any of it is written and after a configuration is adopted. It is written
   * once, in order, under that configuration, and flushed before anything else happens. After a fatal judgement
   * nothing but writing is left.
   */
  predicate Legal(l: Ledger, e: Event) {
    match e
    case Read(config, _) => config == l.config && Settled(l)
    case Handled(frame, _, _) => l.unhandled == Some(frame) && l.live == 0 && Delivered(l)
    case Advanced(_, _) => l.unhandled.None? && l.live != 0 && Delivered(l)
    case Adopted(_) => !l.judged
    case Judged(_) => !l.judged
    case Wrote(frame, config) => l.judged && l.owed != [] && l.owed[0] == frame && config == l.config && !l.dirty
    case Flushed => l.dirty
  }

  function Post(l: Ledger, e: Event): Ledger {
    match e
    case Read(_, got) => l.(unhandled := got)
    case Handled(_, output, live) => l.(unhandled := None, judged := false, owed := l.owed + output, live := live)
    case Advanced(output, live) => l.(judged := false, owed := l.owed + output, live := live)
    case Adopted(config) => l.(config := config)
    case Judged(fatal) => l.(judged := true, fatal := fatal)
    case Wrote(_, _) => l.(owed := if l.owed == [] then [] else l.owed[1..], dirty := true)
    case Flushed => l.(dirty := false)
  }

  function LedgerOf(trace: seq<Event>): Ledger {
    if trace == [] then FRESH else Post(LedgerOf(trace[..|trace| - 1]), trace[|trace| - 1])
  }

  /** Every event of the trace is legal where it happens. */
  ghost predicate Conforms(trace: seq<Event>) {
    forall i | 0 <= i < |trace| :: LegalAt(trace, i)
  }

  ghost predicate LegalAt(trace: seq<Event>, i: nat)
    requires i < |trace|
  {
    Legal(LedgerOf(trace[..i]), trace[i])
  }

  lemma Extend(trace: seq<Event>, e: Event)
    requires Conforms(trace) && Legal(LedgerOf(trace), e)
    ensures Conforms(trace + [e]) && LedgerOf(trace + [e]) == Post(LedgerOf(trace), e)
  {
    var longer := trace + [e];
    assert longer[..|trace|] == trace;
    forall i | 0 <= i < |longer| ensures LegalAt(longer, i) {
      if i < |trace| { assert LegalAt(trace, i) && longer[..i] == trace[..i]; }
    }
  }

  /** Frames the driver produced, frames written, frames read and frames handled in a trace, in order. */
  function OutputOf(e: Event): seq<nat> { if e.Handled? || e.Advanced? then e.output else [] }
  function WrittenBy(e: Event): seq<nat> { if e.Wrote? then [e.frame] else [] }
  function ReadBy(e: Event): seq<nat> { if e.Read? && e.got.Some? then [e.got.value] else [] }
  function HandledBy(e: Event): seq<nat> { if e.Handled? then [e.frame] else [] }

  function Gather(trace: seq<Event>, part: Event -> seq<nat>): seq<nat> {
    if trace == [] then [] else Gather(trace[..|trace| - 1], part) + part(trace[|trace| - 1])
  }

  function Waiting(l: Ledger): seq<nat> { if l.unhandled.Some? then [l.unhandled.value] else [] }

  lemma ConformsTake(trace: seq<Event>, n: nat)
    requires Conforms(trace) && n <= |trace|
    ensures Conforms(trace[..n])
  {
    forall i | 0 <= i < n ensures LegalAt(trace[..n], i) {
      assert LegalAt(trace, i) && trace[..n][..i] == trace[..i];
    }
  }

  lemma ExactStep(l: Ledger, e: Event, produced: seq<nat>, written: seq<nat>, read: seq<nat>, handled: seq<nat>)
    requires Legal(l, e) && produced == written + l.owed && read == handled + Waiting(l)
    ensures produced + OutputOf(e) == written + WrittenBy(e) + Post(l, e).owed
    ensures read + ReadBy(e) == handled + HandledBy(e) + Waiting(Post(l, e))
  {
    if e.Wrote? { assert l.owed == [e.frame] + l.owed[1..]; }
  }

  /** The ledger is exact: produced = written + owed, and read = handled + waiting. */
  lemma {:induction false} LedgerIsExact(trace: seq<Event>)
    requires Conforms(trace)
    ensures Gather(trace, OutputOf) == Gather(trace, WrittenBy) + LedgerOf(trace).owed
    ensures Gather(trace, ReadBy) == Gather(trace, HandledBy) + Waiting(LedgerOf(trace))
  {
    if trace != [] {
      var n := |trace| - 1;
      var front := trace[..n];
      ConformsTake(trace, n);
      LedgerIsExact(front);
      assert LegalAt(trace, n);
      ExactStep(LedgerOf(front), trace[n], Gather(front, OutputOf), Gather(front, WrittenBy),
                Gather(front, ReadBy), Gather(front, HandledBy));
    }
  }

  /**
   * Wherever a conforming trace reads, everything the driver ever produced has been written in order, the last write
   * was flushed, every earlier frame was handled, and nothing is live or fatal.
   */
  lemma {:induction false} ReadMeansDelivered(trace: seq<Event>, i: nat)
    requires Conforms(trace) && i < |trace| && trace[i].Read?
    ensures Gather(trace[..i], OutputOf) == Gather(trace[..i], WrittenBy)
    ensures Gather(trace[..i], ReadBy) == Gather(trace[..i], HandledBy)
    ensures i > 0 ==> !trace[i - 1].Wrote?
    ensures LedgerOf(trace[..i]).live == 0 && !LedgerOf(trace[..i]).fatal
  {
    ConformsTake(trace, i);
    LedgerIsExact(trace[..i]);
    assert LegalAt(trace, i);
  }

  /** After a fatal judgement the ledger stays judged and fatal. */
  lemma {:induction false} FatalStays(trace: seq<Event>, i: nat, j: nat)
    requires Conforms(trace) && i < j <= |trace| && trace[i] == Judged(true)
    ensures LedgerOf(trace[..j]).fatal && LedgerOf(trace[..j]).judged
    decreases j
  {
    assert trace[..j][..j - 1] == trace[..j - 1];
    if i < j - 1 {
      FatalStays(trace, i, j - 1);
      assert LegalAt(trace, j - 1);
    }
  }

  /** In a conforming trace a fatal judgement is followed by writing and flushing, and by nothing else. */
  lemma {:induction false} OnlyWritingAfterFatal(trace: seq<Event>, i: nat, j: nat)
    requires Conforms(trace) && i < j < |trace| && trace[i] == Judged(true)
    ensures trace[j].Wrote? || trace[j].Flushed?
  {
    FatalStays(trace, i, j);
    assert LegalAt(trace, j);
  }

  lemma {:induction false} FindJudgement(trace: seq<Event>, i: nat, j: nat) returns (k: nat)
    requires i < j <= |trace| && (trace[i].Handled? || trace[i].Advanced?) && LedgerOf(trace[..j]).judged
    ensures i < k < j && trace[k].Judged?
    decreases j
  {
    assert trace[..j][..j - 1] == trace[..j - 1];
    if trace[j - 1].Judged? { k := j - 1; } else { k := FindJudgement(trace, i, j - 1); }
  }

  /** Between a driver call and the next read or driver call its output was judged, and not fatal. */
  lemma {:induction false} JudgedBeforeNext(trace: seq<Event>, i: nat, j: nat) returns (k: nat)
    requires Conforms(trace) && i < j < |trace| && (trace[i].Handled? || trace[i].Advanced?)
    requires trace[j].Read? || trace[j].Handled? || trace[j].Advanced?
    ensures i < k < j && trace[k] == Judged(false)
  {
    assert LegalAt(trace, j);
    k := FindJudgement(trace, i, j);
    if trace[k].fatal { OnlyWritingAfterFatal(trace, k, j); }
  }

  // ----- pure checks -----

  function ValidateStatus(s: Status): Option<ServeError> {
    var some := s.pendingPatches + s.pendingImaginations;
    if some > U32_MAX || some + s.pendingObservations > U32_MAX then Some(ExecutorFailed)
    else if some + s.pendingObservations > s.live || (s.live != 0 && s.phase != Active) then Some(ExecutorFailed)
    else None
  }

  function ClosedResult(s: Status): Option<ServeError> {
    if s.live == 0 && s.pendingPatches == 0 && s.pendingImaginations == 0 && s.pendingObservations == 0 then None
    else Some(ExecutorFailed)
  }

  /** A closed driver that passed validation has nothing live or pending, so closing succeeds. */
  lemma ValidClosedIsIdle(s: Status)
    requires ValidateStatus(s).None? && s.phase.Closed?
    ensures s.live == 0 && ClosedResult(s).None?
  {
  }

  /** The counts of a status add up, and only an active driver has live work. */
  predicate Consistent(s: Status) {
    && s.pendingPatches + s.pendingImaginations + s.pendingObservations <= Min(s.live, U32_MAX)
    && (s.phase.Active? || s.live == 0)
  }

  /** An answer with output that is not fatal, and with a consistent status. */
  predicate Sound(a: Answer) {
    a.output.Some? && a.negotiated.Some? && a.fatal == Some(false) && Consistent(a.status)
  }

  /** A failure to write or flush output. */
  predicate OutputFailure(r: Option<ServeError>) { r == Some(OutputFrameFailed) || r == Some(OutputFlushFailed) }

  /** The session ends with a fatal service failure, delivered unless its own delivery failed. */
  predicate FatalExit(l: Ledger, r: Option<ServeError>) { (r == Some(ServiceFailed) && Written(l)) || OutputFailure(r) }

  /** The only ends that leave produced output unwritten: a missed deadline, a failed executor, a failed output. */
  predicate MayAbandon(r: Option<ServeError>) {
    r == Some(OperationTimedOut) || r == Some(ExecutorFailed) || OutputFailure(r)
  }

  /** How a session may end: fatally exactly as judged, and with unwritten output only where it may abandon it. */
  predicate Exited(l: Ledger, r: Option<ServeError>) {
    && (r == Some(ServiceFailed) ==> l.fatal) && (l.fatal ==> FatalExit(l, r)) && (!Written(l) ==> MayAbandon(r))
  }

  /** Everything is delivered and work is still live. */
  predicate Polling(l: Ledger) { Delivered(l) && l.unhandled.None? && l.live != 0 }

  /** The time `k` whole poll intervals take. */
  function Elapsed(k: nat, poll: nat): nat { if k == 0 then 0 else Elapsed(k - 1, poll) + poll }

  /** How many intervals of length `b` it takes to cover `a`. */
  function CeilDiv(a: nat, b: nat): nat
    requires b > 0
  {
    if a == 0 then 0 else 1 + CeilDiv(SatSub(a, b), b)
  }

  /** It is the least number of whole intervals that last as long. */
  lemma {:induction false} CeilDivIsLeast(a: nat, b: nat)
    requires b > 0
    ensures a <= Elapsed(CeilDiv(a, b), b)
    ensures a > 0 ==> Elapsed(CeilDiv(a, b) - 1, b) < a
  {
    if a > 0 { CeilDivIsLeast(SatSub(a, b), b); }
  }

  lemma {:induction false} CeilDivBound(k: nat, poll: nat, timeout: nat)
    requires poll > 0 && Elapsed(k, poll) < timeout
    ensures k + 1 <= CeilDiv(timeout, poll)
    decreases k
  {
    if k > 0 { CeilDivBound(k - 1, poll, timeout - poll); }
  }

  // ----- the session -----

  class Session {
    const world: World
    const policy: Policy
    var taken: nat
    var calls: nat
    var writes: nat
    var looks: nat
    var now: nat
    var advances: nat
    var config: nat
    ghost var trace: seq<Event>

    /** When the work being driven is due, while it is being driven. */
    ghost var due: Option<nat>

    ghost predicate Valid() reads this`trace, this`config, this`taken {
      Conforms(trace) && policy.poll > 0 && LedgerOf(trace).config == config && taken <= |world.inputs| + 1
    }

    ghost function Books(): Ledger reads this`trace { LedgerOf(trace) }

    ghost predicate LastWrite(outcome: WriteOutcome) reads this`writes {
      writes > 0 && world.write(writes - 1) == outcome
    }

    ghost predicate WritesWell() reads this`writes { writes == 0 || LastWrite(Flushes) }

    /** The work being driven can never be due, or is overdue. */
    ghost predicate Overdue() reads this`due, this`now { due.Some? && (due.value > world.clockMax || due.value <= now) }

    /** The driver's answer to the last call. */
    ghost function Last(): Answer
      requires calls > 0
      reads this`calls
    {
      world.answer(calls - 1)
    }

    /** The last call came back in time, its output was delivered, and its answer can be trusted. */
    ghost predicate Succeeded() reads this`calls, this`writes, this`due, this`now {
      calls > 0 && Sound(Last()) && WritesWell() && !Overdue()
    }

    /** The last call failed, or came back in time with an answer that cannot be trusted. */
    ghost predicate Failed() reads this`calls, this`writes, this`due, this`now {
      && calls > 0
      && (Last().output.Some? ==>
          && !Overdue()
          && (Last().negotiated.None? || Last().fatal.None?
              || (Last().fatal == Some(false) && WritesWell() && !Consistent(Last().status))))
    }

    /** Exactly when the last call ends the session with each failure of the driver, the clock or the writer. */
    ghost predicate CallExplains(r: Option<ServeError>) reads this`calls, this`writes, this`due, this`now {
      && calls > 0
      && (r == Some(ExecutorFailed) <==> Failed())
      && (r == Some(OperationTimedOut) <==> Overdue())
      && (r == Some(OutputFrameFailed) <==> LastWrite(WriteFails))
      && (r == Some(OutputFlushFailed) <==> LastWrite(FlushFails))
      && (r == Some(ServiceFailed) <==>
          Last().output.Some? && !Overdue() && Last().negotiated.Some? && Last().fatal == Some(true) && WritesWell())
    }

    /** A failure that a call can end with. */
    static predicate OfCall(r: Option<ServeError>) {
      r == Some(ExecutorFailed) || r == Some(OperationTimedOut) || r == Some(ServiceFailed) || OutputFailure(r)
    }

    /** A frame arrived and the driver was not called yet. */
    ghost predicate Starting() reads this`calls, this`taken {
      calls == 0 && taken == 1 && world.inputs != [] && world.inputs[0].Arrived?
    }

    /** A read after the first call found the end of the stream, in this phase. */
    ghost predicate EndedIn(phase: Phase) reads this`calls, this`taken {
      calls > 0 && taken == |world.inputs| + 1 && Last().status.phase == phase
    }

    /** Exactly when the session ends with each result. */
    ghost predicate Explains(r: Option<ServeError>)
      reads this`calls, this`writes, this`due, this`now, this`taken
    {
      && (r.None? <==> (taken == 1 && world.inputs == []) || (Succeeded() && Last().status.phase.Closed?))
      && (r == Some(InputFrameRejected) <==> 0 < taken <= |world.inputs| && world.inputs[taken - 1].Rejected?)
      && (r == Some(ServiceUnavailable) <==> Starting() && world.startup.Unavailable?)
      && (r == Some(SessionEndedBeforeHello) <==> EndedIn(AwaitingHello))
      && (r == Some(SessionEndedBeforeClose) <==> EndedIn(Active))
      && (if calls > 0 then CallExplains(r)
          else OfCall(r) ==> r == Some(ExecutorFailed) && Starting() && world.startup.Broken?)
      && (Starting() && world.startup.Broken? ==> r == Some(ExecutorFailed))
    }

    constructor (world: World, policy: Policy)
      requires policy.poll > 0
      ensures Valid() && trace == [] && this.world == world && this.policy == policy
      ensures taken == calls == writes == 0 && due.None?
    {
      this.world, this.policy := world, policy;
      taken, calls, writes, looks, now, advances, config := 0, 0, 0, 0, 0, 0, DEFAULT_CONFIG;
      trace, due := [], None;
    }

    ghost method Log(e: Event)
      requires Conforms(trace) && Legal(Books(), e)
      modifies this`trace
      ensures Conforms(trace) && Books() == Post(old(Books()), e)
    {
      Extend(trace, e);
      trace := trace + [e];
    }

    /** Any amount of time may have passed when the clock is looked at. */
    method Look() returns (time: nat)
      modifies this`now, this`looks
      ensures time == now && old(now) <= now
    {
      now := now + world.lag(looks);
      looks := looks + 1;
      time := now;
    }

    /** Sleeping lasts at least as long as asked. */
    method Sleep(duration: nat)
      modifies this`now, this`looks
      ensures old(now) + duration <= now
    {
      now := now + duration + world.lag(looks);
      looks := looks + 1;
    }

    /** Waits for the next poll, or until the deadline if that comes first. */
    method Pause(deadline: nat) returns (late: bool)
      modifies this`now, this`looks
      ensures old(now) <= now && (late ==> deadline <= now)
      ensures deadline <= now || old(now) + policy.poll <= now
    {
      var time := Look();
      if time >= deadline { return true; }
      Sleep(Min(policy.poll, deadline - time));
      return false;
    }

    method ReadInput() returns (r: Result<Option<nat>, ServeError>)
      requires Valid() && Settled(Books()) && taken <= |world.inputs|
      modifies this`taken, this`trace
      ensures Valid() && taken == old(taken) + 1
      ensures Books() == old(Books()).(unhandled := if r.Ok? then r.value else None)
      ensures r == Ok(None) <==> old(taken) == |world.inputs|
      ensures r == Err(InputFrameRejected) <==>
        old(taken) < |world.inputs| && world.inputs[old(taken)].Rejected?
      ensures r.Err? ==> r.error == InputFrameRejected
      ensures r.Ok? && r.value.Some? ==>
        old(taken) < |world.inputs| && world.inputs[old(taken)] == Arrived(r.value.value)
    {
      r :=
        if taken == |world.inputs| then Ok(None)
        else if world.inputs[taken].Rejected? then Err(InputFrameRejected)
        else Ok(Some(world.inputs[taken].frame));
      taken := taken + 1;
      ghost var e := Read(config, if r.Ok? then r.value else None);
      Log(e);
    }

    /** `write_output_frames`: each frame is written and flushed before the next. */
    method WriteOutput(output: seq<nat>) returns (r: Option<ServeError>)
      requires Valid() && Books().owed == output && !Books().dirty && Books().judged && WritesWell()
      modifies this`writes, this`trace
      ensures Valid() && Books().live == old(Books()).live && Books().fatal == old(Books()).fatal && Books().judged
      ensures Books().unhandled == old(Books()).unhandled
      ensures r.None? ==> Written(Books())
      ensures r.None? ==> WritesWell()
      ensures r.Some? ==> OutputFailure(r) && LastWrite(if r.value.OutputFrameFailed? then WriteFails else FlushFails)
    {
      ghost var before := Books();
      for i := 0 to |output|
        invariant Valid() && Books() == before.(owed := output[i..]) && WritesWell()
      {
        writes := writes + 1;
        var outcome := world.write(writes - 1);
        if outcome.WriteFails? { return Some(OutputFrameFailed); }
        Log(Wrote(output[i], config));
        if outcome.FlushFails? { return Some(OutputFlushFailed); }
        Log(Flushed);
      }
      return None;
    }

    /** Adopts a negotiated configuration, judges the output of a call, writes it and checks the status. */
    method Deliver(answer: Answer) returns (r: Option<ServeError>)
      requires Valid() && WritesWell() && answer.output == Some(Books().owed) && !Books().dirty && !Books().judged
      requires !Books().fatal
      modifies this`writes, this`config, this`trace
      ensures Valid() && Books().unhandled == old(Books()).unhandled && Books().live == old(Books()).live
      ensures r.None? ==> Delivered(Books())
      ensures Exited(Books(), r)
      ensures r.None? <==> Sound(answer) && WritesWell()
      ensures r == Some(ExecutorFailed) <==>
        || answer.negotiated.None? || answer.fatal.None?
        || (!answer.fatal.value && WritesWell() && !Consistent(answer.status))
      ensures r == Some(ServiceFailed) <==>
        answer.negotiated.Some? && answer.fatal == Some(true) && WritesWell()
      ensures r == Some(OutputFrameFailed) <==> LastWrite(WriteFails)
      ensures r == Some(OutputFlushFailed) <==> LastWrite(FlushFails)
      ensures r.Some? ==> r == Some(ExecutorFailed) || r == Some(ServiceFailed) || OutputFailure(r)
    {
      if answer.negotiated.None? { return Some(ExecutorFailed); }
      if answer.negotiated.value.Some? {
        Log(Adopted(answer.negotiated.value.value));
        config := answer.negotiated.value.value;
      }
      if answer.fatal.None? { return Some(ExecutorFailed); }
      Log(Judged(answer.fatal.value));
      r := WriteOutput(answer.output.value);
      if r.Some? { return; }
      if answer.fatal.value { return Some(ServiceFailed); }
      return ValidateStatus(answer.status);
    }

    /** Handles `input`, or advances under a deadline, and delivers all the output. */
    method Exchange(input: Option<nat>, deadline: nat) returns (status: Status, r: Option<ServeError>)
      requires Valid() && Delivered(Books()) && Books().unhandled == input && (input.Some? <==> Books().live == 0)
      requires WritesWell() && due == (if input.Some? then None else Some(deadline)) && !Overdue()
      modifies this`calls, this`writes, this`looks, this`now, this`config, this`trace
      ensures Valid() && old(now) <= now && calls == old(calls) + 1 && status == Last().status
      ensures r.None? ==> Delivered(Books()) && Books().unhandled.None? && Books().live == status.live
      ensures (r.None? <==> Succeeded()) && (r.Some? ==> OfCall(r))
      ensures CallExplains(r) && Exited(Books(), r)
    {
      var answer := world.answer(calls);
      calls := calls + 1;
      status := answer.status;
      if answer.output.None? { return status, Some(ExecutorFailed); }
      ghost var e :=
        if input.Some? then Handled(input.value, answer.output.value, status.live)
        else Advanced(answer.output.value, status.live);
      Log(e);
      if input.None? {
        var time := Look();
        if time >= deadline { return status, Some(OperationTimedOut); }
      }
      assert Books().owed == answer.output.value;
      r := Deliver(answer);
    }

    /** Sound work is live and due at `deadline`. */
    ghost predicate Driving(deadline: nat) reads this`trace, this`writes, this`due, this`calls {
      && Polling(Books()) && WritesWell() && due == Some(deadline) && deadline <= world.clockMax
      && calls > 0 && Sound(Last()) && Last().status.live == Books().live
    }

    /** One advance, unless the deadline has passed. */
    method Poll(deadline: nat) returns (status: Status, r: Option<ServeError>)
      requires Valid() && Driving(deadline)
      modifies this`calls, this`writes, this`looks, this`now, this`config, this`trace, this`advances
      ensures Valid() && old(now) <= now
      ensures advances == old(advances) || (advances == old(advances) + 1 && old(now) < deadline)
      ensures r.None? ==> Delivered(Books()) && Books().unhandled.None? && Books().live == status.live
      ensures r.None? ==> Succeeded() && status == Last().status && advances == old(advances) + 1
      ensures r.Some? ==> OfCall(r) && !Succeeded()
      ensures CallExplains(r) && Exited(Books(), r)
    {
      var time := Look();
      if time >= deadline { return Status(Active, 0, 0, 0, 0), Some(OperationTimedOut); }
      advances := advances + 1;
      status, r := Exchange(None, deadline);
    }

    /** The polling loop. It makes at most ceil(timeout / poll) advances. */
    method DriveUntil(deadline: nat) returns (status: Status, r: Option<ServeError>)
      requires Valid() && Driving(deadline) && deadline == now + policy.timeout
      modifies this
      ensures Valid() && taken == old(taken) && due == (if r.None? then None else Some(deadline))
      ensures r.None? ==> Settled(Books()) && status.live == 0 && Succeeded() && status == Last().status
      ensures r.Some? ==> OfCall(r) && !Succeeded()
      ensures CallExplains(r) && Exited(Books(), r)
      ensures advances - old(advances) <= CeilDiv(policy.timeout, policy.poll)
    {
      ghost var made: nat := 0;
      while true
        invariant Valid() && Driving(deadline) && taken == old(taken)
        invariant advances == old(advances) + made && made <= CeilDiv(policy.timeout, policy.poll)
        invariant now >= deadline || now >= old(now) + Elapsed(made, policy.poll)
        decreases CeilDiv(policy.timeout, policy.poll) - made
      {
        if now < deadline { CeilDivBound(made, policy.poll, policy.timeout); }
        status, r := Poll(deadline);
        if r.Some? { return; }
        made := made + 1;
        if status.live == 0 {
          due := None;
          return;
        }
        var late := Pause(deadline);
        if late { return status, Some(OperationTimedOut); }
      }
    }

    /** `drive_to_terminal`: polls until nothing is live or the deadline passes. */
    method DriveToTerminal() returns (status: Status, r: Option<ServeError>)
      requires Valid() && Polling(Books()) && due.None? && Succeeded() && Last().status.live == Books().live
      modifies this
      ensures Valid() && taken == old(taken)
      ensures r.None? ==> Settled(Books()) && status.live == 0 && Succeeded() && status == Last().status && due.None?
      ensures r.Some? ==> OfCall(r) && !Succeeded() && due.Some? && old(now) + policy.timeout <= due.value
      ensures CallExplains(r) && Exited(Books(), r)
      ensures advances - old(advances) <= CeilDiv(policy.timeout, policy.poll)
    {
      var start := Look();
      var deadline := start + policy.timeout;
      due := Some(deadline);
      if deadline > world.clockMax { return Status(Active, 0, 0, 0, 0), Some(OperationTimedOut); }
      status, r := DriveUntil(deadline);
    }

    /** Handles one frame and drives the work it started. */
    method HandleFrame(frame: nat) returns (status: Status, r: Option<ServeError>)
      requires Valid() && Delivered(Books()) && Books().unhandled == Some(frame) && Books().live == 0
      requires WritesWell() && due.None?
      modifies this
      ensures Valid() && taken == old(taken) && calls > 0
      ensures r.None? ==> Settled(Books()) && Succeeded() && status == Last().status && due.None?
      ensures r.Some? ==> OfCall(r) && !Succeeded()
      ensures CallExplains(r) && Exited(Books(), r)
    {
      status, r := Exchange(Some(frame), 0);
      if r.Some? || status.phase.Closed? || status.live == 0 { return; }
      status, r := DriveToTerminal();
    }

    /** A frame was read and awaits a driver that is ready. */
    ghost predicate Ready(frame: nat) reads this`trace, this`writes, this`due, this`taken {
      && Delivered(Books()) && Books().unhandled == Some(frame) && Books().live == 0 && WritesWell() && due.None?
      && 0 < taken <= |world.inputs| && world.inputs[taken - 1].Arrived? && world.startup.Ready?
    }

    /** Reads the first frame and starts the driver. */
    method Open() returns (frame: Option<nat>, r: Option<ServeError>)
      requires Valid() && trace == [] && taken == calls == writes == 0 && due.None?
      modifies this`taken, this`trace
      ensures Valid()
      ensures frame.Some? ==> Ready(frame.value)
      ensures frame.None? ==> Explains(r) && Exited(Books(), r) && (r.None? ==> Settled(Books()))
    {
      var first := ReadInput();
      if first.Err? { return None, Some(first.error); }
      if first.value.None? { return None, None; }
      if world.startup.Unavailable? { return None, Some(ServiceUnavailable); }
      if world.startup.Broken? { return None, Some(ExecutorFailed); }
      return first.value, None;
    }

    /** Reads the next frame; the end of the stream ends the session in the phase it is in. */
    method Continue(phase: Phase) returns (frame: Option<nat>, r: Option<ServeError>)
      requires Valid() && Settled(Books()) && Succeeded() && phase == Last().status.phase && due.None?
      requires !phase.Closed? && 0 < taken <= |world.inputs| && world.startup.Ready?
      modifies this`taken, this`trace
      ensures Valid() && taken == old(taken) + 1
      ensures frame.Some? ==> Ready(frame.value)
      ensures frame.None? ==> r.Some? && Explains(r) && Exited(Books(), r)
    {
      var read := ReadInput();
      if read.Err? { return None, Some(read.error); }
      if read.value.Some? { return read.value, None; }
      match phase {
        case AwaitingHello => return None, Some(SessionEndedBeforeHello);
        case Active => return None, Some(SessionEndedBeforeClose);
      }
    }

    /**
     * `serve_streams_with_policy`. Whatever the world does, the trace conforms to the monitor; success means the
     * stream was empty or the driver closed with nothing owed.
     */
    method Serve() returns (r: Option<ServeError>)
      requires Valid() && trace == [] && taken == calls == writes == 0 && due.None?
      modifies this
      ensures Explains(r)
      ensures Conforms(trace)
      ensures r.None? ==> Settled(Books())
      ensures Exited(Books(), r)
    {
      var next;
      next, r := Open();
      if next.None? { return; }
      while true
        invariant Valid() && next.Some? && Ready(next.value)
        decreases |world.inputs| - taken
      {
        var status, failed := HandleFrame(next.value);
        if failed.Some? { return failed; }
        if status.phase.Closed? { return ClosedResult(status); }
        next, r := Continue(status.phase);
        if next.None? { return; }
      }
    }
  }
}
