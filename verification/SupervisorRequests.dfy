/**
 What each request does as the last one of any run of the supervisor: the backend calls, the state it leaves
 and the reply. And, over whole runs, the backend and the record as a replay of the calls that were made.
 */
module SupervisorRequests {
  import opened Wrappers
  import opened Sequences
  import opened Bytes
  import opened HelperIpc
  import opened Fingerprint
  import opened Supervisor

  // ----- Backend and record are a replay of the calls

  /** What a call makes of the backend, and whether it succeeds. */
  function Called<B>(ops: Backend<B>, b: B, call: Call): (B, bool) {
    match call
    case StartCall(spec) => (ops.start(b, spec).0, ops.start(b, spec).1.Ok?)
    case StopCall => (ops.stop(b).0, ops.stop(b).1.Ok?)
    case StatsCall => (ops.stats(b).0, ops.stats(b).1.Ok?)
    case CleanupCall => (ops.cleanup(b).0, ops.cleanup(b).1.Ok?)
  }

  function Replay<B>(ops: Backend<B>, b: B, calls: seq<Call>): B {
    if calls == [] then b
    else Called(ops, Replay(ops, b, calls[..|calls| - 1]), calls[|calls| - 1]).0
  }

  /** A start that succeeds writes the record, a stop or a cleanup that succeeds clears it; nothing else touches it. */
  function RecordAfter<B>(ops: Backend<B>, sha256: seq<Byte> -> Digest, b: B, calls: seq<Call>): Option<ActiveRecord> {
    if calls == [] then None
    else
      var init, last := calls[..|calls| - 1], calls[|calls| - 1];
      if !Called(ops, Replay(ops, b, init), last).1 then RecordAfter(ops, sha256, b, init)
      else
        match last
        case StartCall(spec) => Some(Record(spec, sha256))
        case StopCall | CleanupCall => None
        case StatsCall => RecordAfter(ops, sha256, b, init)
  }

  ghost predicate Replayed<B>(ops: Backend<B>, sha256: seq<Byte> -> Digest, b: B, s: State<B>, calls: seq<Call>) {
    s.backend == Replay(ops, b, calls) && s.active == RecordAfter(ops, sha256, b, calls)
  }

  lemma ReplayOne<B>(ops: Backend<B>, sha256: seq<Byte> -> Digest, b: B, calls: seq<Call>, call: Call)
    ensures Replay(ops, b, calls + [call]) == Called(ops, Replay(ops, b, calls), call).0
    ensures RecordAfter(ops, sha256, b, calls + [call])
         == if !Called(ops, Replay(ops, b, calls), call).1 || call.StatsCall? then RecordAfter(ops, sha256, b, calls)
            else if call.StartCall? then Some(Record(call.spec, sha256)) else None
  {
    assert (calls + [call])[..|calls|] == calls;
  }

  /** A call that fails, and the cleanup after it. */
  lemma ReplayFailure<B>(ops: Backend<B>, sha256: seq<Byte> -> Digest, b: B, calls: seq<Call>, call: Call)
    requires !Called(ops, Replay(ops, b, calls), call).1
    ensures var failed := Called(ops, Replay(ops, b, calls), call).0;
            && Replay(ops, b, calls + [call, CleanupCall]) == ops.cleanup(failed).0
            && RecordAfter(ops, sha256, b, calls + [call, CleanupCall])
            == if ops.cleanup(failed).1.Ok? then None else RecordAfter(ops, sha256, b, calls)
  {
    ReplayOne(ops, sha256, b, calls, call);
    ReplayOne(ops, sha256, b, calls + [call], CleanupCall);
    assert (calls + [call]) + [CleanupCall] == calls + [call, CleanupCall];
  }

  lemma StartIsReplayed<B>(
    ops: Backend<B>, sha256: seq<Byte> -> Digest, b: B, s: State<B>, calls: seq<Call>, spec: TunnelSpec)
    requires Replayed(ops, sha256, b, s, calls)
    ensures var step := StartStep(ops, sha256, s, spec);
            Replayed(ops, sha256, b, step.next, calls + step.calls)
  {
    if s.active.Some? {
      assert calls + [] == calls;
    } else if ops.start(s.backend, spec).1.Ok? {
      ReplayOne(ops, sha256, b, calls, StartCall(spec));
    } else {
      ReplayFailure(ops, sha256, b, calls, StartCall(spec));
    }
  }

  lemma StopIsReplayed<B>(ops: Backend<B>, sha256: seq<Byte> -> Digest, b: B, s: State<B>, calls: seq<Call>)
    requires Replayed(ops, sha256, b, s, calls)
    ensures var step := StopStep(ops, s);
            Replayed(ops, sha256, b, step.next, calls + step.calls)
  {
    if s.active.None? {
      assert calls + [] == calls;
    } else if ops.stop(s.backend).1.Ok? {
      ReplayOne(ops, sha256, b, calls, StopCall);
    } else {
      ReplayFailure(ops, sha256, b, calls, StopCall);
    }
  }

  lemma RequestIsReplayed<B>(
    ops: Backend<B>, sha256: seq<Byte> -> Digest, b: B, s: State<B>, calls: seq<Call>, request: Request)
    requires Replayed(ops, sha256, b, s, calls)
    ensures var step := HandleStep(ops, sha256, s, request);
            Replayed(ops, sha256, b, step.next, calls + step.calls)
  {
    assert calls + [] == calls;
    if request.protocolVersion == PROTOCOL_VERSION {
      match request.command
      case StartTunnel(spec) => StartIsReplayed(ops, sha256, b, s, calls, spec);
      case StopTunnel => StopIsReplayed(ops, sha256, b, s, calls);
      case Stats => ReplayOne(ops, sha256, b, calls, StatsCall);
      case Cleanup => ReplayOne(ops, sha256, b, calls, CleanupCall);
      case Hello =>
      case Status =>
    }
  }

  /** After every run the backend is what the calls made of it, and the record is what their outcomes say. */
  lemma {:induction false} RunIsReplayed<B>(
    ops: Backend<B>, sha256: seq<Byte> -> Digest, backend: B, requests: seq<Request>)
    ensures var (s, calls) := Run(ops, sha256, Initial(backend), requests);
            Replayed(ops, sha256, backend, s, calls)
    decreases |requests|
  {
    if requests != [] {
      var init, last := requests[..|requests| - 1], requests[|requests| - 1];
      RunIsReplayed(ops, sha256, backend, init);
      var (s, calls) := Run(ops, sha256, Initial(backend), init);
      RequestIsReplayed(ops, sha256, backend, s, calls, last);
    }
  }

  // ----- One more request

  /** After any run, `request` makes the calls `more`, leaves `next` and is answered `payload`. */
  ghost predicate Does<B>(ops: Backend<B>, sha256: seq<Byte> -> Digest, backend: B, requests: seq<Request>,
                          request: Request, more: seq<Call>, next: State<B>, payload: Payload)
  {
    && Run(ops, sha256, Initial(backend), requests + [request])
    == (next, Run(ops, sha256, Initial(backend), requests).1 + more)
    && ReplyTo(ops, sha256, Initial(backend), requests + [request], |requests|) == payload
  }

  lemma OneMore<B>(
    ops: Backend<B>, sha256: seq<Byte> -> Digest, backend: B, requests: seq<Request>, request: Request)
    ensures var step := HandleStep(ops, sha256, Run(ops, sha256, Initial(backend), requests).0, request);
            Does(ops, sha256, backend, requests, request, step.calls, step.next, step.payload)
  {
    RunSnoc(ops, sha256, Initial(backend), requests, request);
    assert (requests + [request])[..|requests|] == requests;
  }

  /** A request of another protocol version is refused for good and does nothing. */
  lemma OtherVersion<B>(
    ops: Backend<B>, sha256: seq<Byte> -> Digest, backend: B, requests: seq<Request>, request: Request)
    requires request.protocolVersion != 1
    ensures var s := Run(ops, sha256, Initial(backend), requests).0;
            Does(ops, sha256, backend, requests, request, [], s,
                 Error(ProtocolMismatch, "unsupported protocol version", false))
  {
    OneMore(ops, sha256, backend, requests, request);
  }

  /** A greeting does nothing. */
  lemma HelloRequest<B>(ops: Backend<B>, sha256: seq<Byte> -> Digest, backend: B, requests: seq<Request>, id: nat)
    ensures var s := Run(ops, sha256, Initial(backend), requests).0;
            Does(ops, sha256, backend, requests, Request(1, id, Hello), [], s, Greeting)
  {
    OneMore(ops, sha256, backend, requests, Request(1, id, Hello));
  }

  /** What a status may show of a specification: no keys, no passwords, no routes. */
  function Shown(spec: TunnelSpec): ActiveTunnel {
    ActiveTunnel(spec.nodeName, spec.interfaceName,
                 if spec.mode.Socks5? then Socks5Kind else SystemSplitKind, spec.address, spec.protocol)
  }

  lemma SummaryIsShown(spec: TunnelSpec)
    ensures Summary(spec) == Shown(spec)
  {
  }

  /** A status does nothing, and shows the state and what is public of the tunnel last started, if one is on record. */
  lemma StatusRequest<B>(ops: Backend<B>, sha256: seq<Byte> -> Digest, backend: B, requests: seq<Request>, id: nat)
    ensures var (s, calls) := Run(ops, sha256, Initial(backend), requests);
            && (s.active.Some? ==> LastStarted(calls).Some?)
            && Does(ops, sha256, backend, requests, Request(1, id, Status), [], s,
                    CurrentStatus(TunnelStatus(
                      s.state, if s.active.Some? then Some(Shown(LastStarted(calls).value)) else None)))
  {
    OneMore(ops, sha256, backend, requests, Request(1, id, Status));
    RunIsSound(ops, sha256, backend, requests);
    var (s, calls) := Run(ops, sha256, Initial(backend), requests);
    StatusShows(s, calls, sha256);
  }

  lemma StatusShows<B>(s: State<B>, calls: seq<Call>, sha256: seq<Byte> -> Digest)
    requires Sound(s, calls, sha256)
    ensures s.active.Some? ==> LastStarted(calls).Some?
    ensures StatusOf(s)
         == TunnelStatus(s.state, if s.active.Some? then Some(Shown(LastStarted(calls).value)) else None)
  {
    if s.active.Some? {
      SummaryIsShown(LastStarted(calls).value);
    }
  }

  /** The figures are the backend's own, and neither the record nor the state changes. */
  lemma StatsRequest<B>(ops: Backend<B>, sha256: seq<Byte> -> Digest, backend: B, requests: seq<Request>, id: nat)
    ensures var s := Run(ops, sha256, Initial(backend), requests).0;
            var (left, outcome) := ops.stats(s.backend);
            Does(ops, sha256, backend, requests, Request(1, id, Stats), [StatsCall], State(left, s.active, s.state),
                 if outcome.Ok? then CurrentStats(outcome.value) else Error(BackendFailure, outcome.error, true))
  {
    OneMore(ops, sha256, backend, requests, Request(1, id, Stats));
  }

  /** A cleanup always asks the backend, once; it ends idle without a record iff the backend agrees. */
  lemma CleanupRequest<B>(ops: Backend<B>, sha256: seq<Byte> -> Digest, backend: B, requests: seq<Request>, id: nat)
    ensures var s := Run(ops, sha256, Initial(backend), requests).0;
            var (left, outcome) := ops.cleanup(s.backend);
            && (outcome.Ok? ==>
                Does(ops, sha256, backend, requests, Request(1, id, Cleanup), [CleanupCall], State(left, None, Idle),
                     Cleaned(TunnelStatus(Idle, None))))
            && (outcome.Err? ==>
                Does(ops, sha256, backend, requests, Request(1, id, Cleanup), [CleanupCall],
                     State(left, s.active, Failed), Error(BackendFailure, outcome.error, true)))
  {
    OneMore(ops, sha256, backend, requests, Request(1, id, Cleanup));
  }

  /** Without a record a stop asks nobody. With one the backend is asked, and cleaned up if it refuses. */
  lemma StopRequest<B>(ops: Backend<B>, sha256: seq<Byte> -> Digest, backend: B, requests: seq<Request>, id: nat)
    ensures var s := Run(ops, sha256, Initial(backend), requests).0;
            var stop := Request(1, id, StopTunnel);
            var (left, outcome) := ops.stop(s.backend);
            && (s.active.None? ==>
                Does(ops, sha256, backend, requests, stop, [], State(s.backend, None, Idle),
                     Stopped(TunnelStatus(Idle, None))))
            && (s.active.Some? && outcome.Ok? ==>
                Does(ops, sha256, backend, requests, stop, [StopCall], State(left, None, Idle),
                     Stopped(TunnelStatus(Idle, None))))
            && (s.active.Some? && outcome.Err? ==>
                var (cleaned, cleanup) := ops.cleanup(left);
                Does(ops, sha256, backend, requests, stop, [StopCall, CleanupCall],
                     if cleanup.Ok? then State(cleaned, None, Idle) else State(cleaned, s.active, Failed),
                     Error(BackendFailure,
                           outcome.error + if cleanup.Ok? then "" else "; cleanup failed: " + cleanup.error, true)))
  {
    OneMore(ops, sha256, backend, requests, Request(1, id, StopTunnel));
    StopStates(ops, Run(ops, sha256, Initial(backend), requests).0);
  }

  lemma StopStates<B>(ops: Backend<B>, s: State<B>)
    ensures var (left, outcome) := ops.stop(s.backend);
            && (s.active.None? ==>
                StopStep(ops, s) == Step(State(s.backend, None, Idle), Stopped(TunnelStatus(Idle, None)), []))
            && (s.active.Some? && outcome.Ok? ==>
                StopStep(ops, s) == Step(State(left, None, Idle), Stopped(TunnelStatus(Idle, None)), [StopCall]))
            && (s.active.Some? && outcome.Err? ==>
                var (cleaned, cleanup) := ops.cleanup(left);
                StopStep(ops, s) ==
                Step(if cleanup.Ok? then State(cleaned, None, Idle) else State(cleaned, s.active, Failed),
                     Error(BackendFailure,
                           outcome.error + if cleanup.Ok? then "" else "; cleanup failed: " + cleanup.error, true),
                     [StopCall, CleanupCall]))
  {
    if s.active.Some? && ops.stop(s.backend).1.Err? {
      var message, cleanup := ops.stop(s.backend).1.error, ops.cleanup(ops.stop(s.backend).0).1;
      FailureMessageMeaning(message, cleanup);
    }
  }

  lemma FailureMessageMeaning(message: string, cleanup: Outcome)
    ensures FailureMessage(message, cleanup)
         == message + if cleanup.Ok? then "" else "; cleanup failed: " + cleanup.error
  {
    if cleanup.Err? {
      Assoc(message, "; cleanup failed: ", cleanup.error);
    } else {
      assert message + "" == message;
    }
  }

  /** Without a record a start asks the backend for exactly this tunnel, and cleans up after a refusal. */
  lemma StartRequest<B>(ops: Backend<B>, sha256: seq<Byte> -> Digest, backend: B, requests: seq<Request>,
                        id: nat, spec: TunnelSpec)
    requires Run(ops, sha256, Initial(backend), requests).0.active.None?
    ensures var s := Run(ops, sha256, Initial(backend), requests).0;
            var start := Request(1, id, StartTunnel(spec));
            var (left, outcome) := ops.start(s.backend, spec);
            && (outcome.Ok? ==>
                Does(ops, sha256, backend, requests, start, [StartCall(spec)],
                     State(left, Some(ActiveRecord(sha256(Encode(spec)), Shown(spec))), Running),
                     Started(TunnelStatus(Running, Some(Shown(spec))))))
            && (outcome.Err? ==>
                var (cleaned, cleanup) := ops.cleanup(left);
                Does(ops, sha256, backend, requests, start, [StartCall(spec), CleanupCall],
                     State(cleaned, None, if cleanup.Ok? then Idle else Failed),
                     Error(BackendFailure,
                           outcome.error + if cleanup.Ok? then "" else "; cleanup failed: " + cleanup.error, true)))
  {
    OneMore(ops, sha256, backend, requests, Request(1, id, StartTunnel(spec)));
    SummaryIsShown(spec);
    var s := Run(ops, sha256, Initial(backend), requests).0;
    if ops.start(s.backend, spec).1.Err? {
      FailureMessageMeaning(ops.start(s.backend, spec).1.error, ops.cleanup(ops.start(s.backend, spec).0).1);
    }
  }

  /** Recovery: whatever happened before, after a cleanup the backend agrees to, a start reaches the backend. */
  lemma StartAfterCleanup<B>(ops: Backend<B>, sha256: seq<Byte> -> Digest, backend: B, requests: seq<Request>,
                             id: nat, spec: TunnelSpec)
    requires ops.cleanup(Run(ops, sha256, Initial(backend), requests).0.backend).1.Ok?
    ensures Run(ops, sha256, Initial(backend), requests).1 + [CleanupCall, StartCall(spec)]
         <= Run(ops, sha256, Initial(backend),
                requests + [Request(1, id, Cleanup)] + [Request(1, id, StartTunnel(spec))]).1
  {
    CleanupRequest(ops, sha256, backend, requests, id);
    StartRequest(ops, sha256, backend, requests + [Request(1, id, Cleanup)], id, spec);
    var calls := Run(ops, sha256, Initial(backend), requests).1;
    assert calls + [CleanupCall] + [StartCall(spec)] == calls + [CleanupCall, StartCall(spec)];
    assert calls + [CleanupCall] + [StartCall(spec), CleanupCall]
        == calls + [CleanupCall, StartCall(spec)] + [CleanupCall];
  }
}
