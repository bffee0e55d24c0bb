/**
 The WireGuard backend of `apps/helper/src/libwg_backend.rs` and the supervisor on top of it.

 The foreign library is seen through its calls: `starts` counts the successful ones that start an
 instance, `stops` those that stop one. What a foreign call brings is decided by `foreign`, an
 arbitrary sequence of replies, of which `used` have been consumed.
 */
module LibwgBackend {
  import opened Wrappers
  import opened Bytes
  import opened HelperIpc
  import opened Fingerprint
  import opened Supervisor
  import opened SupervisorRequests

  type Reply = Result<TunnelStats, string>

  datatype Libwg = Libwg(
    running: bool, interfaceName: Option<Text>, starts: nat, stops: nat, foreign: nat -> Reply, used: nat)

  const ALREADY_RUNNING := "libwg is already running"
  const NO_INTERFACE := "running libwg instance has no interface name"

  function StartLibwg(b: Libwg, spec: TunnelSpec): (Libwg, Outcome) {
    if b.running then (b, Err(ALREADY_RUNNING))
    else if b.foreign(b.used).Err? then (b.(used := b.used + 1), Err(b.foreign(b.used).error))
    else if b.foreign(b.used + 1).Err? then
      (b.(starts := b.starts + 1, stops := b.stops + 1, used := b.used + 2), Err(b.foreign(b.used + 1).error))
    else
      (b.(running := true, interfaceName := Some(spec.interfaceName), starts := b.starts + 1, used := b.used + 2), Ok(()))
  }

  function AfterStop(b: Libwg): Libwg {
    if b.running then b.(running := false, interfaceName := None, stops := b.stops + 1) else b
  }

  function StopLibwg(b: Libwg): (Libwg, Outcome) {
    (AfterStop(b), Ok(()))
  }

  function StatsLibwg(b: Libwg): (Libwg, Result<TunnelStats, string>) {
    if !b.running then (b, Ok(TunnelStats(0, 0)))
    else if b.interfaceName.None? then (b, Err(NO_INTERFACE))
    else (b.(used := b.used + 1), b.foreign(b.used))
  }

  const LIBWG: Backend<Libwg> := Backend(StartLibwg, StopLibwg, StatsLibwg, StopLibwg)

  function NewLibwg(foreign: nat -> Reply): Libwg {
    Libwg(false, None, 0, 0, foreign, 0)
  }

  class LibwgBackend {
    var running: bool
    var interfaceName: Option<Text>
    const foreign: nat -> Reply
    var used: nat
    ghost var starts: nat
    ghost var stops: nat

    ghost function View(): Libwg
      reads this
    {
      Libwg(running, interfaceName, starts, stops, foreign, used)
    }

    constructor (foreign: nat -> Reply)
      ensures View() == NewLibwg(foreign)
      ensures !running && interfaceName.None? && starts == stops == used == 0 && this.foreign == foreign
    {
      running, interfaceName, used, starts, stops := false, None, 0, 0, 0;
      this.foreign := foreign;
    }

    method ForeignCall() returns (reply: Reply)
      modifies this`used
      ensures reply == foreign(old(used)) && used == old(used) + 1
    {
      reply := foreign(used);
      used := used + 1;
    }

    method StopForeign()
      modifies this`stops
      ensures stops == old(stops) + 1
    {
      stops := stops + 1;
    }

    method Start(spec: TunnelSpec) returns (outcome: Outcome)
      modifies this
      ensures (View(), outcome) == StartLibwg(old(View()), spec)
    {
      if running {
        return Err(ALREADY_RUNNING);
      }
      var started := ForeignCall();
      if started.Err? {
        return Err(started.error);
      }
      starts := starts + 1;
      var configured := ForeignCall();
      if configured.Err? {
        StopForeign();
        return Err(configured.error);
      }
      running := true;
      interfaceName := Some(spec.interfaceName);
      return Ok(());
    }

    method Stats() returns (reply: Reply)
      modifies this`used
      ensures (View(), reply) == StatsLibwg(old(View()))
    {
      if !running {
        return Ok(TunnelStats(0, 0));
      }
      if interfaceName.None? {
        return Err(NO_INTERFACE);
      }
      reply := ForeignCall();
    }

    method Stop() returns (outcome: Outcome)
      modifies this
      ensures (View(), outcome) == StopLibwg(old(View()))
    {
      StopIfRunning();
      return Ok(());
    }

    method Cleanup() returns (outcome: Outcome)
      modifies this
      ensures (View(), outcome) == StopLibwg(old(View()))
    {
      StopIfRunning();
      return Ok(());
    }

    method Drop()
      modifies this
      ensures View() == AfterStop(old(View()))
    {
      StopIfRunning();
    }

    method StopIfRunning()
      modifies this
      ensures View() == AfterStop(old(View()))
    {
      if running {
        StopForeign();
        running := false;
        interfaceName := None;
      }
    }
  }

  // ----- Instances

  /** Instances of the library that were started and not stopped. */
  function Live(b: Libwg): int {
    b.starts - b.stops
  }

  /** The driver's fields tell whether an instance lives, and there is never more than one. */
  ghost predicate Consistent(b: Libwg) {
    && Live(b) == (if b.running then 1 else 0)
    && (b.running <==> b.interfaceName.Some?)
  }

  /** What holds of the helper between requests. */
  ghost predicate Coupled(s: State<Libwg>) {
    && Consistent(s.backend)
    && (s.state == Running || s.state == Idle)
    && (s.state == Running <==> s.active.Some?)
    && (s.state == Running <==> Live(s.backend) == 1)
    && (s.active.Some? ==> s.backend.interfaceName == Some(s.active.value.summary.interfaceName))
  }

  /**
   Replies tell the truth about the library, and neither of the driver's own errors can occur: it is
   never started while running, nor asked for the figures of an instance without a name.
   */
  ghost predicate Honest(before: State<Libwg>, step: Step<Libwg>) {
    && (step.payload.Started? ==> Live(step.next.backend) == 1)
    && (step.payload.Stopped? || step.payload.Cleaned? ==> Live(step.next.backend) == 0)
    && (forall call :: call in step.calls && call.StartCall? ==> !before.backend.running)
    && (StatsCall in step.calls && before.backend.running ==> before.backend.interfaceName.Some?)
  }

  lemma StartKeepsCoupling(sha256: seq<Byte> -> Digest, s: State<Libwg>, spec: TunnelSpec)
    requires Coupled(s)
    ensures var step := StartStep(LIBWG, sha256, s, spec);
            Coupled(step.next) && Honest(s, step)
  {
  }

  lemma StopKeepsCoupling(s: State<Libwg>)
    requires Coupled(s)
    ensures Coupled(StopStep(LIBWG, s).next) && Honest(s, StopStep(LIBWG, s))
    ensures Coupled(CleanupStep(LIBWG, s).next) && Honest(s, CleanupStep(LIBWG, s))
  {
  }

  lemma RequestKeepsCoupling(sha256: seq<Byte> -> Digest, s: State<Libwg>, request: Request)
    requires Coupled(s)
    ensures var step := HandleStep(LIBWG, sha256, s, request);
            Coupled(step.next) && Honest(s, step)
  {
    if request.protocolVersion == PROTOCOL_VERSION {
      match request.command
      case StartTunnel(spec) => StartKeepsCoupling(sha256, s, spec);
      case _ => StopKeepsCoupling(s);
    }
  }

  /** In every reachable state at most one instance lives, exactly while the helper says it is running. */
  lemma {:induction false} RunIsCoupled(sha256: seq<Byte> -> Digest, foreign: nat -> Reply, requests: seq<Request>)
    ensures Coupled(Run(LIBWG, sha256, Initial(NewLibwg(foreign)), requests).0)
    decreases |requests|
  {
    if requests != [] {
      var init, last := requests[..|requests| - 1], requests[|requests| - 1];
      RunIsCoupled(sha256, foreign, init);
      RequestKeepsCoupling(sha256, Run(LIBWG, sha256, Initial(NewLibwg(foreign)), init).0, last);
    }
  }

  /** Whenever the helper ends, dropping the backend leaves no instance behind. */
  lemma DropLeavesNothing(sha256: seq<Byte> -> Digest, foreign: nat -> Reply, requests: seq<Request>)
    ensures Live(AfterStop(Run(LIBWG, sha256, Initial(NewLibwg(foreign)), requests).0.backend)) == 0
  {
    RunIsCoupled(sha256, foreign, requests);
  }

  /** After every run the figures are zero without a tunnel, and otherwise what the library says next. */
  lemma FiguresAreTheLibrarys(sha256: seq<Byte> -> Digest, foreign: nat -> Reply, requests: seq<Request>, id: nat)
    ensures var s := Run(LIBWG, sha256, Initial(NewLibwg(foreign)), requests).0;
            && (s.active.None? ==>
                Does(LIBWG, sha256, NewLibwg(foreign), requests, Request(1, id, Stats), [StatsCall], s,
                     CurrentStats(TunnelStats(0, 0))))
            && (s.active.Some? ==>
                Does(LIBWG, sha256, NewLibwg(foreign), requests, Request(1, id, Stats), [StatsCall],
                     s.(backend := s.backend.(used := s.backend.used + 1)),
                     match s.backend.foreign(s.backend.used)
                     case Ok(figures) => CurrentStats(figures)
                     case Err(message) => Error(BackendFailure, message, true)))
  {
    RunIsCoupled(sha256, foreign, requests);
    StatsRequest(LIBWG, sha256, NewLibwg(foreign), requests, id);
  }

  /**
   After every run without a tunnel, a start asks the library to start and then to configure. It succeeds iff
   both do, and otherwise reports the first of them that fails; an instance that started is stopped again.
   */
  lemma StartAsksTwice(
    sha256: seq<Byte> -> Digest, foreign: nat -> Reply, requests: seq<Request>, id: nat, spec: TunnelSpec)
    requires Run(LIBWG, sha256, Initial(NewLibwg(foreign)), requests).0.active.None?
    ensures var b := Run(LIBWG, sha256, Initial(NewLibwg(foreign)), requests).0.backend;
            var start := Request(1, id, StartTunnel(spec));
            var started, configured := b.foreign(b.used), b.foreign(b.used + 1);
            && (started.Err? ==>
                Does(LIBWG, sha256, NewLibwg(foreign), requests, start, [StartCall(spec), CleanupCall],
                     State(b.(used := b.used + 1), None, Idle), Error(BackendFailure, started.error, true)))
            && (started.Ok? && configured.Err? ==>
                Does(LIBWG, sha256, NewLibwg(foreign), requests, start, [StartCall(spec), CleanupCall],
                     State(b.(starts := b.starts + 1, stops := b.stops + 1, used := b.used + 2), None, Idle),
                     Error(BackendFailure, configured.error, true)))
            && (started.Ok? && configured.Ok? ==>
                Does(LIBWG, sha256, NewLibwg(foreign), requests, start, [StartCall(spec)],
                     State(Libwg(true, Some(spec.interfaceName), b.starts + 1, b.stops, b.foreign, b.used + 2),
                           Some(ActiveRecord(sha256(Encode(spec)), Shown(spec))), Running),
                     Started(TunnelStatus(Running, Some(Shown(spec))))))
  {
    RunIsCoupled(sha256, foreign, requests);
    StartRequest(LIBWG, sha256, NewLibwg(foreign), requests, id, spec);
    StartCalls(Run(LIBWG, sha256, Initial(NewLibwg(foreign)), requests).0.backend, spec);
  }

  lemma StartCalls(b: Libwg, spec: TunnelSpec)
    requires Consistent(b) && !b.running
    ensures var started, configured := b.foreign(b.used), b.foreign(b.used + 1);
            && (started.Err? ==> StartLibwg(b, spec) == (b.(used := b.used + 1), Err(started.error)))
            && (started.Ok? && configured.Err? ==>
                StartLibwg(b, spec)
                == (b.(starts := b.starts + 1, stops := b.stops + 1, used := b.used + 2), Err(configured.error)))
            && (started.Ok? && configured.Ok? ==>
                StartLibwg(b, spec)
                == (Libwg(true, Some(spec.interfaceName), b.starts + 1, b.stops, b.foreign, b.used + 2), Ok(())))
            && (forall next: Libwg :: !next.running ==> StopLibwg(next) == (next, Ok(())))
  {
  }
}
