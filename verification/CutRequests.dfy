/**
 Requests that the helper drops halfway: `apps/helper/src/unix.rs` and `windows.rs` give a connection ten
 seconds, drop what it was doing, and go on serving with the same supervisor.

 The supervisor waits only inside its backend calls. A request that is dropped during one leaves its
 fields as `DuringCall` says, which `Supervisor.Handle` is proved to show at every call, and leaves the
 backend in any state at all.
 */
module CutRequests {
  import opened Wrappers
  import opened Bytes
  import opened HelperIpc
  import opened Fingerprint
  import opened Supervisor

  /** The request is dropped during its backend call number `call`, which leaves the backend in `left`. */
  datatype Cut<B> = Cut(call: nat, left: B)

  /** A request that makes fewer calls than the cut allows is over in time; at most its reply is lost. */
  datatype Attempt<B> = Attempt(request: Request, cut: Option<Cut<B>>)

  datatype Made = Made(call: Call, finished: bool)

  function AllMade(calls: seq<Call>): seq<Made> {
    seq(|calls|, i requires 0 <= i < |calls| => Made(calls[i], true))
  }

  function AttemptStep<B>(ops: Backend<B>, sha256: seq<Byte> -> Digest, s: State<B>, attempt: Attempt<B>)
    : (State<B>, seq<Made>)
  {
    var step := HandleStep(ops, sha256, s, attempt.request);
    if attempt.cut.None? || attempt.cut.value.call >= |step.calls| then (step.next, AllMade(step.calls))
    else
      var k, shown := attempt.cut.value.call, DuringCall(s, attempt.request.command);
      (State(attempt.cut.value.left, shown.active, shown.state),
       AllMade(step.calls[..k]) + [Made(step.calls[k], false)])
  }

  /** A cut leaves the backend anywhere, the record as it was, and a start or a stop announced; its call is the last. */
  lemma CutLeaves<B>(
    ops: Backend<B>, sha256: seq<Byte> -> Digest, s: State<B>, request: Request, k: nat, left: B)
    requires k < |HandleStep(ops, sha256, s, request).calls|
    ensures var (next, made) := AttemptStep(ops, sha256, s, Attempt(request, Some(Cut(k, left))));
            && next.backend == left && next.active == s.active
            && next.state == (if request.command.StartTunnel? then Starting
                              else if request.command.StopTunnel? then Stopping
                              else s.state)
            && |made| == k + 1
            && forall i :: 0 <= i <= k ==> made[i] == Made(HandleStep(ops, sha256, s, request).calls[i], i < k)
  {
  }

  function Attempts<B>(ops: Backend<B>, sha256: seq<Byte> -> Digest, s: State<B>, attempts: seq<Attempt<B>>)
    : (State<B>, seq<Made>)
    decreases |attempts|
  {
    if attempts == [] then (s, [])
    else
      var before := Attempts(ops, sha256, s, attempts[..|attempts| - 1]);
      var step := AttemptStep(ops, sha256, before.0, attempts[|attempts| - 1]);
      (step.0, before.1 + step.1)
  }

  /** A cut adds two visible states: starting without a record, and stopping with one. */
  ghost predicate CutVisible<B>(s: State<B>) {
    || Visible(s)
    || (s.state == Starting && s.active.None?)
    || (s.state == Stopping && s.active.Some?)
  }

  /** The last start, unless a stop or a cleanup was begun after it. */
  ghost function LastOpen(made: seq<Made>): Option<Made> {
    if made == [] then None
    else
      var last := made[|made| - 1];
      if last.call.StartCall? then Some(last)
      else if last.call.StatsCall? then LastOpen(made[..|made| - 1])
      else None
  }

  ghost function LastStart(made: seq<Made>): Option<TunnelSpec> {
    if made == [] then None
    else
      var last := made[|made| - 1];
      if last.call.StartCall? then Some(last.call.spec) else LastStart(made[..|made| - 1])
  }

  /** The start at position `i` follows another start, with no stop and no cleanup begun in between. */
  ghost predicate SecondStart(made: seq<Made>, i: nat)
    requires i < |made|
  {
    made[i].call.StartCall? && LastOpen(made[..i]).Some?
  }

  /** Only a start that was cut is followed by a second one. */
  ghost predicate OnlyCutsRepeat(made: seq<Made>) {
    forall i :: 0 <= i < |made| && SecondStart(made, i) ==> !LastOpen(made[..i]).value.finished
  }

  /** What every run with cuts keeps. */
  ghost predicate CutSound<B>(s: State<B>, made: seq<Made>, sha256: seq<Byte> -> Digest) {
    && CutVisible(s)
    && OnlyCutsRepeat(made)
    && (LastOpen(made).Some? ==> (LastOpen(made).value.finished <==> s.active.Some?))
    && (s.active.Some? ==> LastStart(made).Some? && s.active.value == Record(LastStart(made).value, sha256))
  }

  lemma AddMade(made: seq<Made>, m: Made)
    requires OnlyCutsRepeat(made)
    requires m.call.StartCall? && LastOpen(made).Some? ==> !LastOpen(made).value.finished
    ensures OnlyCutsRepeat(made + [m])
    ensures LastOpen(made + [m])
         == if m.call.StartCall? then Some(m) else if m.call.StatsCall? then LastOpen(made) else None
    ensures LastStart(made + [m]) == if m.call.StartCall? then Some(m.call.spec) else LastStart(made)
  {
    var longer := made + [m];
    assert longer[..|made|] == made;
    forall i | 0 <= i < |longer| && SecondStart(longer, i)
      ensures !LastOpen(longer[..i]).value.finished
    {
      if i < |made| {
        assert longer[..i] == made[..i];
        assert SecondStart(made, i);
      }
    }
  }

  lemma AddTwoMade(made: seq<Made>, first: Made, second: Made)
    requires OnlyCutsRepeat(made) && second.call == CleanupCall
    requires first.call.StartCall? && LastOpen(made).Some? ==> !LastOpen(made).value.finished
    ensures OnlyCutsRepeat(made + [first, second]) && LastOpen(made + [first, second]) == None
    ensures LastStart(made + [first, second])
         == if first.call.StartCall? then Some(first.call.spec) else LastStart(made)
  {
    AddMade(made, first);
    AddMade(made + [first], second);
    assert made + [first] + [second] == made + [first, second];
  }

  /** One or two calls, the second a cleanup: all that a request ever makes. */
  lemma CallsOfStep<B>(ops: Backend<B>, sha256: seq<Byte> -> Digest, s: State<B>, request: Request)
    ensures var calls := HandleStep(ops, sha256, s, request).calls;
            && |calls| <= 2
            && (|calls| == 2 ==> calls[1] == CleanupCall)
            && (forall i :: 0 <= i < |calls| && calls[i].StartCall? ==>
                i == 0 && s.active.None? && request.command == StartTunnel(calls[i].spec))
  {
  }

  lemma MadeByAttempt<B>(
    ops: Backend<B>, sha256: seq<Byte> -> Digest, s: State<B>, attempt: Attempt<B>, made: seq<Made>)
    requires CutSound(s, made, sha256)
    ensures var (_, more) := AttemptStep(ops, sha256, s, attempt);
            && OnlyCutsRepeat(made + more)
            && LastOpen(made + more)
            == (if more == [] then LastOpen(made)
                else if |more| == 1 && more[0].call.StartCall? then Some(more[0])
                else if |more| == 1 && more[0].call.StatsCall? then LastOpen(made)
                else None)
            && LastStart(made + more)
            == if more != [] && more[0].call.StartCall? then Some(more[0].call.spec) else LastStart(made)
  {
    CallsOfStep(ops, sha256, s, attempt.request);
    var (_, more) := AttemptStep(ops, sha256, s, attempt);
    if more == [] {
      assert made + more == made;
    } else if |more| == 1 {
      AddMade(made, more[0]);
      assert more == [more[0]];
    } else {
      AddTwoMade(made, more[0], more[1]);
      assert more == [more[0], more[1]];
    }
  }

  /** How the record depends on the calls that were made: only a start that is over in time writes it. */
  ghost predicate Explained<B>(s: State<B>, next: State<B>, more: seq<Made>, sha256: seq<Byte> -> Digest) {
    && (next.active.Some? ==>
        if more != [] && more[0].call.StartCall?
        then more[0].finished && next.active.value == Record(more[0].call.spec, sha256)
        else next.active == s.active)
    && (next.active.None? ==>
        || (s.active.None? && (more == [] || (|more| == 1 && more[0].call.StatsCall?)))
        || (|more| == 1 && more[0].call.StartCall? && !more[0].finished)
        || (more != [] && !more[|more| - 1].call.StartCall? && !more[|more| - 1].call.StatsCall?))
  }

  lemma StepIsExplained<B>(ops: Backend<B>, sha256: seq<Byte> -> Digest, s: State<B>, request: Request)
    requires CutVisible(s)
    ensures var step := HandleStep(ops, sha256, s, request);
            CutVisible(step.next) && Explained(s, step.next, AllMade(step.calls), sha256)
  {
    if request.protocolVersion == PROTOCOL_VERSION {
      match request.command
      case StartTunnel(spec) => StartIsExplained(ops, sha256, s, spec);
      case StopTunnel => StopIsExplained(ops, sha256, s);
      case Stats =>
      case Cleanup =>
      case Hello =>
      case Status =>
    }
  }

  lemma StartIsExplained<B>(ops: Backend<B>, sha256: seq<Byte> -> Digest, s: State<B>, spec: TunnelSpec)
    requires CutVisible(s)
    ensures var step := StartStep(ops, sha256, s, spec);
            CutVisible(step.next) && Explained(s, step.next, AllMade(step.calls), sha256)
  {
  }

  lemma StopIsExplained<B>(ops: Backend<B>, sha256: seq<Byte> -> Digest, s: State<B>)
    requires CutVisible(s)
    ensures var step := StopStep(ops, s);
            CutVisible(step.next) && Explained(s, step.next, AllMade(step.calls), sha256)
  {
  }

  lemma CutIsExplained<B>(
    ops: Backend<B>, sha256: seq<Byte> -> Digest, s: State<B>, request: Request, k: nat, left: B)
    requires CutVisible(s) && k < |HandleStep(ops, sha256, s, request).calls|
    ensures var (next, more) := AttemptStep(ops, sha256, s, Attempt(request, Some(Cut(k, left))));
            CutVisible(next) && Explained(s, next, more, sha256)
  {
    CallsOfStep(ops, sha256, s, request);
  }

  lemma AttemptIsSound<B>(
    ops: Backend<B>, sha256: seq<Byte> -> Digest, s: State<B>, attempt: Attempt<B>, made: seq<Made>)
    requires CutSound(s, made, sha256)
    ensures var (next, more) := AttemptStep(ops, sha256, s, attempt);
            CutSound(next, made + more, sha256)
  {
    CallsOfStep(ops, sha256, s, attempt.request);
    MadeByAttempt(ops, sha256, s, attempt, made);
    if attempt.cut.Some? && attempt.cut.value.call < |HandleStep(ops, sha256, s, attempt.request).calls| {
      CutIsExplained(ops, sha256, s, attempt.request, attempt.cut.value.call, attempt.cut.value.left);
    } else {
      StepIsExplained(ops, sha256, s, attempt.request);
    }
  }

  /**
   Over every run, every backend and every pattern of dropped requests: besides the states of `RunIsSound`
   only (Starting, none) and (Stopping, some) are visible, a start that follows a start without a stop or
   a cleanup begun in between follows one that was cut, and a record describes the tunnel last started.
   */
  lemma {:induction false} CutRunIsSound<B>(
    ops: Backend<B>, sha256: seq<Byte> -> Digest, backend: B, attempts: seq<Attempt<B>>)
    ensures var (s, made) := Attempts(ops, sha256, Initial(backend), attempts);
            CutSound(s, made, sha256)
    decreases |attempts|
  {
    if attempts != [] {
      var init, last := attempts[..|attempts| - 1], attempts[|attempts| - 1];
      CutRunIsSound(ops, sha256, backend, init);
      var (s, made) := Attempts(ops, sha256, Initial(backend), init);
      AttemptIsSound(ops, sha256, s, last, made);
    }
  }

  lemma AttemptsSnoc<B>(
    ops: Backend<B>, sha256: seq<Byte> -> Digest, s: State<B>, attempts: seq<Attempt<B>>, last: Attempt<B>)
    ensures var (before, made) := Attempts(ops, sha256, s, attempts);
            var (next, more) := AttemptStep(ops, sha256, before, last);
            Attempts(ops, sha256, s, attempts + [last]) == (next, made + more)
  {
    assert (attempts + [last])[..|attempts|] == attempts;
  }

  /**
   After every run that leaves a start open: if it was over in time, a further start stays away from the
   backend and a stop goes there; if it was cut, it is the other way round. So a cut start can be doubled,
   and a stop after it reports success although nothing was stopped; only a cleanup reaches the backend.
   */
  lemma CutStartIsForgotten<B>(
    ops: Backend<B>, sha256: seq<Byte> -> Digest, backend: B, attempts: seq<Attempt<B>>, spec: TunnelSpec)
    requires LastOpen(Attempts(ops, sha256, Initial(backend), attempts).1).Some?
    ensures var (s, made) := Attempts(ops, sha256, Initial(backend), attempts);
            && (StartStep(ops, sha256, s, spec).calls != [] <==> !LastOpen(made).value.finished)
            && (StopStep(ops, s).calls != [] <==> LastOpen(made).value.finished)
            && (!LastOpen(made).value.finished ==> StopStep(ops, s).payload == Stopped(TunnelStatus(Idle, None)))
            && CleanupStep(ops, s).calls == [CleanupCall]
  {
    CutRunIsSound(ops, sha256, backend, attempts);
  }

  lemma {:induction false} LastOpenIsMade(made: seq<Made>)
    ensures LastOpen(made).Some? ==> LastOpen(made).value in made && LastOpen(made).value.call.StartCall?
  {
    if made != [] && made[|made| - 1].call.StatsCall? {
      LastOpenIsMade(made[..|made| - 1]);
    }
  }

  /** As long as no start is cut, whatever else is, no start follows a start without a stop or a cleanup. */
  lemma UncutStartsAreSingle<B>(
    ops: Backend<B>, sha256: seq<Byte> -> Digest, backend: B, attempts: seq<Attempt<B>>, i: nat)
    requires i < |Attempts(ops, sha256, Initial(backend), attempts).1|
    requires forall m :: m in Attempts(ops, sha256, Initial(backend), attempts).1 && m.call.StartCall? ==> m.finished
    ensures !SecondStart(Attempts(ops, sha256, Initial(backend), attempts).1, i)
  {
    CutRunIsSound(ops, sha256, backend, attempts);
    LastOpenIsMade(Attempts(ops, sha256, Initial(backend), attempts).1[..i]);
  }

  lemma StartFromNothing<B>(
    ops: Backend<B>, sha256: seq<Byte> -> Digest, s: State<B>, spec: TunnelSpec, id: nat, left: B)
    requires s.active.None?
    ensures var start := Request(PROTOCOL_VERSION, id, StartTunnel(spec));
            && AttemptStep(ops, sha256, s, Attempt(start, Some(Cut(0, left))))
            == (State(left, None, Starting), [Made(StartCall(spec), false)])
            && [Made(StartCall(spec), true)] <= AttemptStep(ops, sha256, s, Attempt(start, None)).1
  {
    var start := Request(PROTOCOL_VERSION, id, StartTunnel(spec));
    var step := HandleStep(ops, sha256, s, start);
    assert step == StartStep(ops, sha256, s, spec);
    assert step.calls[0] == StartCall(spec);
    assert AllMade(step.calls[..0]) == [];
    var none: seq<Made> := [];
    assert none + [Made(StartCall(spec), false)] == [Made(StartCall(spec), false)];
  }

  /** With any backend: a start that is cut, and the same start again, is made twice. */
  lemma CutStartRunsTwice<B>(
    ops: Backend<B>, sha256: seq<Byte> -> Digest, backend: B, left: B, spec: TunnelSpec, id: nat)
    ensures var start := Request(PROTOCOL_VERSION, id, StartTunnel(spec));
            var made := Attempts(ops, sha256, Initial(backend),
                                 [Attempt(start, Some(Cut(0, left)))] + [Attempt(start, None)]).1;
            && [Made(StartCall(spec), false), Made(StartCall(spec), true)] <= made
            && SecondStart(made, 1)
  {
    var start := Request(PROTOCOL_VERSION, id, StartTunnel(spec));
    TwoAttempts(ops, sha256, Initial(backend), Attempt(start, Some(Cut(0, left))), Attempt(start, None));
    StartFromNothing(ops, sha256, Initial(backend), spec, id, left);
    StartFromNothing(ops, sha256, State(left, None, Starting), spec, id, left);
    TwiceMade(Made(StartCall(spec), false),
              AttemptStep(ops, sha256, State(left, None, Starting), Attempt(start, None)).1);
  }

  lemma TwoAttempts<B>(
    ops: Backend<B>, sha256: seq<Byte> -> Digest, s: State<B>, first: Attempt<B>, second: Attempt<B>)
    ensures var (between, made) := AttemptStep(ops, sha256, s, first);
            var (next, more) := AttemptStep(ops, sha256, between, second);
            Attempts(ops, sha256, s, [first] + [second]) == (next, made + more)
  {
    AttemptsSnoc(ops, sha256, s, [], first);
    assert [] + [first] == [first];
    var made := AttemptStep(ops, sha256, s, first).1;
    assert [] + made == made;
    AttemptsSnoc(ops, sha256, s, [first], second);
  }

  lemma TwiceMade(first: Made, more: seq<Made>)
    requires first.call.StartCall? && more != [] && more[0].call.StartCall?
    ensures [first, more[0]] <= [first] + more && SecondStart([first] + more, 1)
  {
    assert ([first] + more)[..1] == [first];
  }

  /** Without cuts this is `Supervisor.Run`. */
  lemma {:induction false} UncutAttemptsAreARun<B>(
    ops: Backend<B>, sha256: seq<Byte> -> Digest, s: State<B>, requests: seq<Request>, attempts: seq<Attempt<B>>)
    requires |attempts| == |requests|
    requires forall i :: 0 <= i < |attempts| ==> attempts[i] == Attempt(requests[i], None)
    ensures var (t, calls) := Run(ops, sha256, s, requests);
            Attempts(ops, sha256, s, attempts) == (t, AllMade(calls))
    decreases |requests|
  {
    if requests != [] {
      var n := |requests| - 1;
      UncutAttemptsAreARun(ops, sha256, s, requests[..n], attempts[..n]);
      var (t, calls) := Run(ops, sha256, s, requests[..n]);
      var more := HandleStep(ops, sha256, t, requests[n]).calls;
      assert attempts[n] == Attempt(requests[n], None);
      assert AllMade(calls + more) == AllMade(calls) + AllMade(more);
      assert Attempts(ops, sha256, s, attempts[..n]) == (t, AllMade(calls));
      assert AttemptStep(ops, sha256, t, attempts[n]).1 == AllMade(more);
    } else {
      assert AllMade([]) == [];
    }
  }
}
