/**
 The tunnel supervisor of `apps/helper/src/lib.rs`, for any backend.

 A backend is a state of type `B` and four operations on it that may fail; nothing else is assumed of
 it. `HandleStep` says what one request does; the class carries it out step by step.
 */
module Supervisor {
  import opened Wrappers
  import opened Bytes
  import opened HelperIpc
  import opened Fingerprint

  type Outcome = Result<(), string>

  datatype Backend<!B> = Backend(
    start: (B, TunnelSpec) -> (B, Outcome),
    stop: B -> (B, Outcome),
    stats: B -> (B, Result<TunnelStats, string>),
    cleanup: B -> (B, Outcome))

  /** A call the supervisor makes to its backend. */
  datatype Call = StartCall(spec: TunnelSpec) | StopCall | StatsCall | CleanupCall

  datatype ActiveRecord = ActiveRecord(fingerprint: Digest, summary: ActiveTunnel)

  datatype State<B> = State(backend: B, active: Option<ActiveRecord>, state: HelperState)

  datatype Step<B> = Step(next: State<B>, payload: Payload, calls: seq<Call>)

  function StatusOf<B>(s: State<B>): TunnelStatus {
    TunnelStatus(s.state, if s.active.Some? then Some(s.active.value.summary) else None)
  }

  function Initial<B>(backend: B): State<B> {
    State(backend, None, Idle)
  }

  function Record(spec: TunnelSpec, sha256: seq<Byte> -> Digest): ActiveRecord {
    ActiveRecord(sha256(Encode(spec)), Summary(spec))
  }

  function FailureMessage(message: string, cleanup: Outcome): string {
    match cleanup
    case Err(error) => message + "; cleanup failed: " + error
    case Ok(_) => message
  }

  function StartStep<B>(ops: Backend<B>, sha256: seq<Byte> -> Digest, s: State<B>, spec: TunnelSpec): Step<B> {
    if s.active.Some? then
      if s.active.value.fingerprint == sha256(Encode(spec)) && s.state == Running then
        Step(s, Started(StatusOf(s)), [])
      else
        Step(s, Error(AlreadyRunning, "a different tunnel is already active", true), [])
    else
      var (started, outcome) := ops.start(s.backend, spec);
      match outcome
      case Ok(_) =>
        var next := State(started, Some(Record(spec, sha256)), Running);
        Step(next, Started(StatusOf(next)), [StartCall(spec)])
      case Err(message) =>
        var (cleaned, cleanup) := ops.cleanup(started);
        Step(State(cleaned, None, if cleanup.Err? then Failed else Idle),
             Error(BackendFailure, FailureMessage(message, cleanup), true),
             [StartCall(spec), CleanupCall])
  }

  function StopStep<B>(ops: Backend<B>, s: State<B>): Step<B> {
    if s.active.None? then
      var next := s.(state := Idle);
      Step(next, Stopped(StatusOf(next)), [])
    else
      var (stopped, outcome) := ops.stop(s.backend);
      match outcome
      case Ok(_) =>
        var next := State(stopped, None, Idle);
        Step(next, Stopped(StatusOf(next)), [StopCall])
      case Err(message) =>
        var (cleaned, cleanup) := ops.cleanup(stopped);
        Step(if cleanup.Err? then State(cleaned, s.active, Failed) else State(cleaned, None, Idle),
             Error(BackendFailure, FailureMessage(message, cleanup), true),
             [StopCall, CleanupCall])
  }

  function CleanupStep<B>(ops: Backend<B>, s: State<B>): Step<B> {
    var (cleaned, outcome) := ops.cleanup(s.backend);
    match outcome
    case Ok(_) =>
      var next := State(cleaned, None, Idle);
      Step(next, Cleaned(StatusOf(next)), [CleanupCall])
    case Err(message) =>
      Step(State(cleaned, s.active, Failed), Error(BackendFailure, message, true), [CleanupCall])
  }

  function StatsStep<B>(ops: Backend<B>, s: State<B>): Step<B> {
    var (backend, outcome) := ops.stats(s.backend);
    Step(s.(backend := backend),
         match outcome
         case Ok(stats) => CurrentStats(stats)
         case Err(message) => Error(BackendFailure, message, true),
         [StatsCall])
  }

  function HandleStep<B>(ops: Backend<B>, sha256: seq<Byte> -> Digest, s: State<B>, request: Request): Step<B> {
    if request.protocolVersion != PROTOCOL_VERSION then
      Step(s, Error(ProtocolMismatch, "unsupported protocol version", false), [])
    else
      match request.command
      case Hello => Step(s, Greeting, [])
      case StartTunnel(spec) => StartStep(ops, sha256, s, spec)
      case StopTunnel => StopStep(ops, s)
      case Status => Step(s, CurrentStatus(StatusOf(s)), [])
      case Stats => StatsStep(ops, s)
      case Cleanup => CleanupStep(ops, s)
  }

  /** What the supervisor itself shows while a backend call is under way. */
  datatype Suspension = Suspension(active: Option<ActiveRecord>, state: HelperState)

  /** The record does not change before the last call is over; a start and a stop announce themselves. */
  function DuringCall<B>(s: State<B>, command: Command): Suspension {
    match command
    case StartTunnel(_) => Suspension(s.active, Starting)
    case StopTunnel => Suspension(s.active, Stopping)
    case _ => Suspension(s.active, s.state)
  }

  class Supervisor<B> {
    const ops: Backend<B>
    const sha256: seq<Byte> -> Digest
    var backend: B
    var active: Option<ActiveRecord>
    var state: HelperState
    ghost var calls: seq<Call>
    ghost var suspensions: seq<Suspension>

    function View(): State<B>
      reads this
    {
      State(backend, active, state)
    }

    constructor (ops: Backend<B>, sha256: seq<Byte> -> Digest, backend: B)
      ensures this.ops == ops && this.sha256 == sha256
      ensures View() == Initial(backend) && calls == [] && suspensions == []
      ensures this.backend == backend && active.None? && state == Idle
    {
      this.ops, this.sha256, this.backend := ops, sha256, backend;
      active, state, calls, suspensions := None, Idle, [], [];
    }

    method Handle(request: Request) returns (response: Response)
      modifies this
      ensures response.requestId == request.requestId
      ensures var step := HandleStep(ops, sha256, old(View()), request);
              View() == step.next && response.payload == step.payload && calls == old(calls) + step.calls
      ensures var during := DuringCall(old(View()), request.command);
              var step := HandleStep(ops, sha256, old(View()), request);
              suspensions == old(suspensions) + seq(|step.calls|, _ => during)
    {
      var payload;
      if request.protocolVersion != PROTOCOL_VERSION {
        payload := Error(ProtocolMismatch, "unsupported protocol version", false);
      } else {
        match request.command
        case Hello =>
          payload := Greeting;
        case StartTunnel(spec) =>
          payload := Start(spec);
        case StopTunnel =>
          payload := Stop();
        case Status =>
          payload := CurrentStatus(StatusOf(View()));
        case Stats =>
          var outcome;
          suspensions := suspensions + [Suspension(active, state)];
          backend, outcome := ops.stats(backend).0, ops.stats(backend).1;
          calls := calls + [StatsCall];
          payload := match outcome
            case Ok(stats) => CurrentStats(stats)
            case Err(message) => Error(BackendFailure, message, true);
        case Cleanup =>
          payload := Clean();
      }
      return Response(request.requestId, payload);
    }

    /** A frame that does not decode is answered with request id 0 and changes nothing. */
    method HandleFrame(frame: Option<Request>) returns (response: Response)
      modifies this
      ensures frame.None? ==>
              && View() == old(View()) && calls == old(calls)
              && response == Response(0, Error(InvalidRequest, "malformed request", false))
      ensures frame.Some? ==>
              var step := HandleStep(ops, sha256, old(View()), frame.value);
              && View() == step.next && calls == old(calls) + step.calls
              && response == Response(frame.value.requestId, step.payload)
    {
      match frame
      case Some(request) => response := Handle(request);
      case None => response := Response(0, Error(InvalidRequest, "malformed request", false));
    }

    method CallCleanup() returns (outcome: Outcome)
      modifies this`backend, this`calls, this`suspensions
      ensures (backend, outcome) == ops.cleanup(old(backend))
      ensures calls == old(calls) + [CleanupCall]
      ensures suspensions == old(suspensions) + [Suspension(active, state)]
    {
      suspensions := suspensions + [Suspension(active, state)];
      backend, outcome := ops.cleanup(backend).0, ops.cleanup(backend).1;
      calls := calls + [CleanupCall];
    }

    method Start(spec: TunnelSpec) returns (payload: Payload)
      modifies this
      ensures var step := StartStep(ops, sha256, old(View()), spec);
              View() == step.next && payload == step.payload && calls == old(calls) + step.calls
      ensures var during, step := DuringCall(old(View()), StartTunnel(spec)), StartStep(ops, sha256, old(View()), spec);
              suspensions == old(suspensions) + seq(|step.calls|, _ => during)
    {
      var fingerprint := TunnelFingerprint(spec, sha256);
      if active.Some? {
        if active.value.fingerprint == fingerprint && state == Running {
          return Started(StatusOf(View()));
        }
        return Error(AlreadyRunning, "a different tunnel is already active", true);
      }
      state := Starting;
      var outcome;
      suspensions := suspensions + [Suspension(active, state)];
      backend, outcome := ops.start(backend, spec).0, ops.start(backend, spec).1;
      calls := calls + [StartCall(spec)];
      match outcome
      case Ok(_) =>
        active := Some(ActiveRecord(fingerprint, Summary(spec)));
        state := Running;
        return Started(StatusOf(View()));
      case Err(message) =>
        var cleanup := CallCleanup();
        active := None;
        state := if cleanup.Err? then Failed else Idle;
        return Error(BackendFailure, FailureMessage(message, cleanup), true);
    }

    method Stop() returns (payload: Payload)
      modifies this
      ensures var step := StopStep(ops, old(View()));
              View() == step.next && payload == step.payload && calls == old(calls) + step.calls
      ensures var during, step := DuringCall(old(View()), StopTunnel), StopStep(ops, old(View()));
              suspensions == old(suspensions) + seq(|step.calls|, _ => during)
    {
      if active.None? {
        state := Idle;
        return Stopped(StatusOf(View()));
      }
      state := Stopping;
      var outcome;
      suspensions := suspensions + [Suspension(active, state)];
      backend, outcome := ops.stop(backend).0, ops.stop(backend).1;
      calls := calls + [StopCall];
      match outcome
      case Ok(_) =>
        active, state := None, Idle;
        return Stopped(StatusOf(View()));
      case Err(message) =>
        var cleanup := CallCleanup();
        if cleanup.Ok? {
          active, state := None, Idle;
        } else {
          state := Failed;
        }
        return Error(BackendFailure, FailureMessage(message, cleanup), true);
    }

    method Clean() returns (payload: Payload)
      modifies this
      ensures var step := CleanupStep(ops, old(View()));
              View() == step.next && payload == step.payload && calls == old(calls) + step.calls
      ensures var during, step := DuringCall(old(View()), Cleanup), CleanupStep(ops, old(View()));
              suspensions == old(suspensions) + seq(|step.calls|, _ => during)
    {
      var outcome := CallCleanup();
      match outcome
      case Ok(_) =>
        active, state := None, Idle;
        return Cleaned(StatusOf(View()));
      case Err(message) =>
        state := Failed;
        return Error(BackendFailure, message, true);
    }
  }

  // ----- Runs

  /** The state after `requests`, and every backend call made on the way. */
  function Run<B>(ops: Backend<B>, sha256: seq<Byte> -> Digest, s: State<B>, requests: seq<Request>): (State<B>, seq<Call>)
    decreases |requests|
  {
    if requests == [] then (s, [])
    else
      var before := Run(ops, sha256, s, requests[..|requests| - 1]);
      var step := HandleStep(ops, sha256, before.0, requests[|requests| - 1]);
      (step.next, before.1 + step.calls)
  }

  /** Between requests the helper is idle, or running a tunnel, or failed with or without a record of one. */
  ghost predicate Visible<B>(s: State<B>) {
    || (s.state == Idle && s.active.None?)
    || (s.state == Running && s.active.Some?)
    || s.state == Failed
  }

  /** The last call that starts, stops or cleans up is a start. */
  ghost predicate Open(calls: seq<Call>) {
    calls != [] &&
    var last := calls[|calls| - 1];
    last.StartCall? || (last.StatsCall? && Open(calls[..|calls| - 1]))
  }

  /** The specification of the last start. */
  ghost function LastStarted(calls: seq<Call>): Option<TunnelSpec> {
    if calls == [] then None
    else if calls[|calls| - 1].StartCall? then Some(calls[|calls| - 1].spec)
    else LastStarted(calls[..|calls| - 1])
  }

  /** No start follows a start without a stop or a cleanup in between. */
  ghost predicate NeverStartsTwice(calls: seq<Call>) {
    forall i :: 0 <= i < |calls| && calls[i].StartCall? ==> !Open(calls[..i])
  }

  /** What every run keeps: the visible states, single starts, and a record of what was last started. */
  ghost predicate Sound<B>(s: State<B>, calls: seq<Call>, sha256: seq<Byte> -> Digest) {
    && Visible(s)
    && NeverStartsTwice(calls)
    && (Open(calls) ==> s.active.Some?)
    && (s.active.Some? ==> LastStarted(calls).Some? && s.active.value == Record(LastStarted(calls).value, sha256))
  }

  lemma StartsOnlyWhenInactive<B>(ops: Backend<B>, sha256: seq<Byte> -> Digest, s: State<B>, request: Request, i: nat)
    requires i < |HandleStep(ops, sha256, s, request).calls|
    requires HandleStep(ops, sha256, s, request).calls[i].StartCall?
    ensures s.active.None? && i == 0
  {
  }

  /** A success reply shows the state it leaves; a backend failure is reported only after a backend call. */
  ghost predicate Truthful<B>(s: State<B>, step: Step<B>) {
    && (step.payload.Started? ==> step.next.state == Running && step.payload.status == StatusOf(step.next))
    && (step.payload.Stopped? || step.payload.Cleaned? ==>
        StatusOf(step.next) == step.payload.status == TunnelStatus(Idle, None))
    && (step.payload.CurrentStatus? ==> step.next == s && step.payload.status == StatusOf(s))
    && (step.payload.Error? && step.payload.code == BackendFailure ==> step.calls != [])
  }

  lemma RepliesAreTruthful<B>(ops: Backend<B>, sha256: seq<Byte> -> Digest, s: State<B>, request: Request)
    requires Visible(s)
    ensures Truthful(s, HandleStep(ops, sha256, s, request))
  {
    if request.protocolVersion == PROTOCOL_VERSION {
      match request.command
      case StartTunnel(spec) => assert Truthful(s, StartStep(ops, sha256, s, spec));
      case StopTunnel => assert Truthful(s, StopStep(ops, s));
      case Cleanup => assert Truthful(s, CleanupStep(ops, s));
      case _ =>
    }
  }

  lemma AddCall(calls: seq<Call>, call: Call)
    requires NeverStartsTwice(calls)
    requires call.StartCall? ==> !Open(calls)
    ensures NeverStartsTwice(calls + [call])
    ensures Open(calls + [call]) <==> call.StartCall? || (call.StatsCall? && Open(calls))
    ensures LastStarted(calls + [call]) == if call.StartCall? then Some(call.spec) else LastStarted(calls)
  {
    var longer := calls + [call];
    assert longer[..|calls|] == calls;
    forall i | 0 <= i < |longer| && longer[i].StartCall?
      ensures !Open(longer[..i])
    {
      assert longer[..i] == calls[..i];
      if i < |calls| {
        assert calls[i].StartCall?;
      } else {
        assert calls[..i] == calls;
      }
    }
  }

  lemma AddTwoCalls(calls: seq<Call>, first: Call, second: Call)
    requires NeverStartsTwice(calls)
    requires first.StartCall? ==> !Open(calls)
    requires second == CleanupCall
    ensures NeverStartsTwice(calls + [first, second]) && !Open(calls + [first, second])
    ensures LastStarted(calls + [first, second]) == if first.StartCall? then Some(first.spec) else LastStarted(calls)
  {
    AddCall(calls, first);
    AddCall(calls + [first], second);
    assert calls + [first] + [second] == calls + [first, second];
  }

  lemma StartIsSound<B>(ops: Backend<B>, sha256: seq<Byte> -> Digest, s: State<B>, spec: TunnelSpec, calls: seq<Call>)
    requires Sound(s, calls, sha256)
    ensures var step := StartStep(ops, sha256, s, spec);
            Sound(step.next, calls + step.calls, sha256)
  {
    if s.active.Some? {
      assert calls + [] == calls;
    } else {
      match ops.start(s.backend, spec).1
      case Ok(_) => AddCall(calls, StartCall(spec));
      case Err(_) => AddTwoCalls(calls, StartCall(spec), CleanupCall);
    }
  }

  lemma StopIsSound<B>(ops: Backend<B>, sha256: seq<Byte> -> Digest, s: State<B>, calls: seq<Call>)
    requires Sound(s, calls, sha256)
    ensures var step := StopStep(ops, s);
            Sound(step.next, calls + step.calls, sha256)
  {
    if s.active.None? {
      assert calls + [] == calls;
    } else {
      match ops.stop(s.backend).1
      case Ok(_) => AddCall(calls, StopCall);
      case Err(_) => AddTwoCalls(calls, StopCall, CleanupCall);
    }
  }

  lemma StepIsSound<B>(ops: Backend<B>, sha256: seq<Byte> -> Digest, s: State<B>, request: Request, calls: seq<Call>)
    requires Sound(s, calls, sha256)
    ensures var step := HandleStep(ops, sha256, s, request);
            Sound(step.next, calls + step.calls, sha256)
  {
    assert calls + [] == calls;
    if request.protocolVersion == PROTOCOL_VERSION {
      match request.command
      case StartTunnel(spec) => StartIsSound(ops, sha256, s, spec, calls);
      case StopTunnel => StopIsSound(ops, sha256, s, calls);
      case Stats => AddCall(calls, StatsCall);
      case Cleanup => AddCall(calls, CleanupCall);
      case Hello =>
      case Status =>
    }
  }

  lemma {:induction false} RunIsSound<B>(ops: Backend<B>, sha256: seq<Byte> -> Digest, backend: B, requests: seq<Request>)
    ensures var (s, calls) := Run(ops, sha256, Initial(backend), requests);
            Sound(s, calls, sha256)
    decreases |requests|
  {
    if requests != [] {
      var init, last := requests[..|requests| - 1], requests[|requests| - 1];
      RunIsSound(ops, sha256, backend, init);
      var (s, calls) := Run(ops, sha256, Initial(backend), init);
      StepIsSound(ops, sha256, s, last, calls);
    }
  }

  /** What the request at position `i` of a run is answered. */
  function ReplyTo<B>(ops: Backend<B>, sha256: seq<Byte> -> Digest, s: State<B>, requests: seq<Request>, i: nat)
    : Payload
    requires i < |requests|
  {
    HandleStep(ops, sha256, Run(ops, sha256, s, requests[..i]).0, requests[i]).payload
  }

  function RepeatedReply<B>(s: State<B>, request: Request): Payload {
    if request.protocolVersion == PROTOCOL_VERSION then Started(StatusOf(s))
    else Error(ProtocolMismatch, "unsupported protocol version", false)
  }

  /**
   Starting the running tunnel again, any number of times, succeeds every time, changes nothing and calls
   nothing. A request of another protocol version is refused and does no harm either.
   */
  lemma {:induction false} RepeatedStartIsIdempotent<B>(
    ops: Backend<B>, sha256: seq<Byte> -> Digest, s: State<B>, spec: TunnelSpec, requests: seq<Request>)
    requires s.state == Running && s.active == Some(Record(spec, sha256))
    requires forall i :: 0 <= i < |requests| ==> requests[i].command == StartTunnel(spec)
    ensures Run(ops, sha256, s, requests) == (s, [])
    ensures forall i :: 0 <= i < |requests| ==>
            ReplyTo(ops, sha256, s, requests, i) == RepeatedReply(s, requests[i])
    decreases |requests|
  {
    if requests != [] {
      var init, last := requests[..|requests| - 1], requests[|requests| - 1];
      assert last.command == StartTunnel(spec);
      RepeatedStart(ops, sha256, s, spec, last);
      var none: seq<Call> := [];
      assert none + none == none;
      RepeatedStartIsIdempotent(ops, sha256, s, spec, init);
      forall i | 0 <= i < |requests|
        ensures ReplyTo(ops, sha256, s, requests, i) == RepeatedReply(s, requests[i])
      {
        assert requests[..i] == init[..i];
        if i < |init| {
          assert ReplyTo(ops, sha256, s, init, i) == RepeatedReply(s, init[i]);
        }
      }
    }
  }

  lemma RepeatedStart<B>(
    ops: Backend<B>, sha256: seq<Byte> -> Digest, s: State<B>, spec: TunnelSpec, request: Request)
    requires s.state == Running && s.active == Some(Record(spec, sha256)) && request.command == StartTunnel(spec)
    ensures HandleStep(ops, sha256, s, request) == Step(s, RepeatedReply(s, request), [])
  {
  }

  /**
   While a record is held, a start never reaches the backend. It succeeds exactly when the running
   tunnel is the one asked for, as long as the hash does not collide on these two specifications.
   */
  lemma StartAcceptedIffSameTunnel<B>(
    ops: Backend<B>, sha256: seq<Byte> -> Digest, s: State<B>, calls: seq<Call>, running: TunnelSpec, spec: TunnelSpec)
    requires Sound(s, calls, sha256) && s.active.Some?
    requires LastStarted(calls) == Some(running)
    requires sha256(Encode(running)) == sha256(Encode(spec)) ==> Encode(running) == Encode(spec)
    ensures var step := StartStep(ops, sha256, s, spec);
            && step.next == s && step.calls == []
            && step.payload == if s.state == Running && spec == running then Started(StatusOf(s))
                               else Error(AlreadyRunning, "a different tunnel is already active", true)
  {
    SameFingerprintSameTunnel(running, spec, sha256);
  }

  /** A backend that starts and never lets go. */
  const STUCK: Backend<()> := Backend(
    (b, _) => (b, Ok(())),
    b => (b, Err("stop")),
    b => (b, Err("stats")),
    b => (b, Err("cleanup")))

  /**
   The documented idempotence fails here: after a stop and a cleanup that both fail the record is still
   held, and starting the same tunnel again is refused as if another one were active.
   */
  lemma SameTunnelIsRefusedAfterAFailedStop(sha256: seq<Byte> -> Digest, spec: TunnelSpec, id: nat)
    ensures var start := Request(PROTOCOL_VERSION, id, StartTunnel(spec));
            var requests := [start] + [Request(PROTOCOL_VERSION, id, StopTunnel)] + [start];
            && Run(STUCK, sha256, Initial(()), requests).0 == State((), Some(Record(spec, sha256)), Failed)
            && ReplyTo(STUCK, sha256, Initial(()), requests, 0).Started?
            && ReplyTo(STUCK, sha256, Initial(()), requests, 2)
            == Error(AlreadyRunning, "a different tunnel is already active", true)
  {
    var start, stop := Request(PROTOCOL_VERSION, id, StartTunnel(spec)), Request(PROTOCOL_VERSION, id, StopTunnel);
    var requests := [start] + [stop] + [start];
    RunSnoc(STUCK, sha256, Initial(()), [], start);
    assert [] + [start] == [start];
    RunSnoc(STUCK, sha256, Initial(()), [start], stop);
    RunSnoc(STUCK, sha256, Initial(()), [start] + [stop], start);
    assert requests[..0] == [] && requests[..2] == [start] + [stop];
  }

  lemma RunSnoc<B>(ops: Backend<B>, sha256: seq<Byte> -> Digest, s: State<B>, requests: seq<Request>, request: Request)
    ensures var (before, calls) := Run(ops, sha256, s, requests);
            var step := HandleStep(ops, sha256, before, request);
            Run(ops, sha256, s, requests + [request]) == (step.next, calls + step.calls)
  {
    assert (requests + [request])[..|requests|] == requests;
  }
}
