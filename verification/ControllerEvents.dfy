/**
 What every event of the desktop controller does, field by field, and how long a session and a record last
 over whole runs.
 */
module ControllerEvents {
  import opened Wrappers
  import opened SecretMigration
  import opened DiskOutcomes
  import opened TunnelPreparation
  import opened ConnectionLedger

  /** Between events, a session means that the profile counts as loaded. */
  predicate Proper(s: State) {
    s.session.Some? ==> s.loaded
  }

  ghost predicate SameAccount(s: State, t: State) {
    && t.acquired == s.acquired && t.released == s.released
    && t.overwritten == s.overwritten && t.stranded == s.stranded
  }

  ghost predicate SameCalls(s: State, t: State) {
    t.releasing == s.releasing && t.configuring == s.configuring
  }

  lemma {:induction false} RunIsProper(s: State, events: seq<Event>)
    requires Proper(s)
    ensures Proper(Run(s, events))
    decreases |events|
  {
    if events != [] {
      RunIsProper(s, events[..|events| - 1]);
      EventIsProper(Run(s, events[..|events| - 1]), events[|events| - 1]);
    }
  }

  lemma EventIsProper(s: State, event: Event)
    requires Proper(s)
    ensures Proper(Apply(s, event))
  {
  }

  // ----- Loading

  /**
   A loaded controller does not load again. Otherwise the disk is that of the load; if the load succeeds the
   controller is loaded, with an empty session exactly when there was a profile, and if not it is as before.
   */
  lemma Loading(s: State, faults: Faults)
    requires Proper(s)
    ensures var (t, verdict) := LoadIfNeeded(s, faults);
            && Apply(s, Initialize(faults)) == t
            && (s.loaded ==> t == s && verdict.Ok?)
            && (!s.loaded ==>
                && SameAccount(s, t) && SameCalls(s, t) && t.disk == Load(s.disk, faults).0
                && (verdict.Ok? <==> Load(s.disk, faults).1.Ok?)
                && t.loaded == verdict.Ok?
                && t.session == (if verdict.Ok? && s.disk.file.Readable? then Some(Session([], None)) else None)
                && (verdict.Err? ==> verdict.error == LoadFailed(Load(s.disk, faults).1.error)))
  {
    NothingToLoad(s.disk, faults);
  }

  /** The first start of the program: without a profile it succeeds, whatever the faults, and stays without a session. */
  lemma FirstStart(store: Secrets, faults: Faults)
    ensures var start := Startup(Disk(Missing, store));
            && LoadIfNeeded(start, faults) == (start.(loaded := true), Ok(()))
            && Run(start, [Initialize(faults)]) == start.(loaded := true)
  {
    var start := Startup(Disk(Missing, store));
    NothingToLoad(start.disk, faults);
    Loading(start, faults);
    RunSnoc(start, [], Initialize(faults));
    assert [] + [Initialize(faults)] == [Initialize(faults)];
  }

  // ----- Nodes

  /** A refresh puts the given list in place of the old one, or fails with the first reason and leaves it. */
  lemma Refreshing(s: State, faults: Faults, needLogin: bool, nodes: Option<seq<Node>>)
    requires Proper(s)
    ensures var (l, loaded) := LoadIfNeeded(s, faults);
            var (t, verdict) := RefreshStep(s, faults, needLogin, nodes);
            && Apply(s, RefreshNodes(faults, needLogin, nodes)) == t
            && verdict == (if loaded.Err? then loaded
                           else if l.session.None? then Err(NotConfigured)
                           else if needLogin then Err(AuthenticationRequired)
                           else if nodes.None? then Err(NodeListFailed)
                           else Ok(()))
            && (verdict.Err? ==> t == l)
            && (verdict.Ok? ==>
                && t.session == Some(Session(nodes.value, ActiveOf(l)))
                && SameAccount(l, t) && SameCalls(l, t) && t.disk == l.disk && t.loaded == l.loaded)
  {
  }

  // ----- Connecting

  ghost predicate IsListed(s: State, nodeId: int) {
    s.session.Some? && exists i :: 0 <= i < |s.session.value.nodes| && s.session.value.nodes[i].id == nodeId
  }

  /** A connect reports the first thing that is missing, in this order. */
  lemma ConnectVerdict(s: State, mode: HelperMode, nodeId: int, env: ConnectEnv)
    ensures ConnectStep(s, mode, nodeId, env).1
         == var (l, loaded) := LoadIfNeeded(s, env.faults);
            if loaded.Err? then loaded
            else if l.session.None? then Err(NotConfigured)
            else if env.needLogin then Err(AuthenticationRequired)
            else if ActiveOf(l).Some? then Err(AlreadyConnected)
            else if !IsListed(l, nodeId) then Err(NodeNotFound)
            else if !env.helperReady then Err(HelperUnavailable)
            else if env.answer.Denied? || GrantIsWasted(env.client, env.answer) then Err(TunnelPrepareFailed)
            else if !env.helperStarts then Err(HelperRejected)
            else Ok(())
  {
    var l := LoadIfNeeded(s, env.faults).0;
    if l.session.Some? {
      FindNodeFinds(l.session.value.nodes, nodeId);
    }
    FailsAfterGrantIff(env.client, env.answer);
  }

  /** The server is asked: nothing is missing on the controller's side. */
  ghost predicate IsAsked(s: State, nodeId: int, env: ConnectEnv) {
    var (l, loaded) := LoadIfNeeded(s, env.faults);
    && loaded.Ok? && IsListed(l, nodeId) && ActiveOf(l).None? && !env.needLogin && env.helperReady
  }

  /** `when` decides whether `config` is added to an account. */
  function Booked(account: multiset<WgConf>, config: WgConf, when: bool): multiset<WgConf> {
    if when then account + multiset{config} else account
  }

  /**
   A connect that is granted a connection books it, and then exactly one more thing: it goes on record, or is
   given back because the helper refuses, or is stranded because the grant is wasted.
   */
  lemma Connecting(s: State, mode: HelperMode, nodeId: int, env: ConnectEnv)
    ensures var l := LoadIfNeeded(s, env.faults).0;
            var t := Apply(s, Connect(mode, nodeId, env));
            var asked, wasted := IsAsked(s, nodeId, env), GrantIsWasted(env.client, env.answer);
            && SameCalls(l, t) && t.disk == l.disk && t.loaded == l.loaded && t.overwritten == l.overwritten
            && (!asked || env.answer.Denied? ==> t == l)
            && (asked && !env.answer.Denied? ==>
                var config := env.answer.connection;
                && t.acquired == l.acquired + multiset{config}
                && t.stranded == Booked(l.stranded, config, wasted)
                && t.released == Booked(l.released, config, !wasted && !env.helperStarts)
                && t.session == Some(Session(
                  l.session.value.nodes,
                  if !wasted && env.helperStarts then Some(Connection(mode, config)) else None)))
  {
    var l := LoadIfNeeded(s, env.faults).0;
    if l.session.Some? {
      FindNodeFinds(l.session.value.nodes, nodeId);
    }
    FailsAfterGrantIff(env.client, env.answer);
    ConnectIsGrant(s, mode, nodeId, env);
    if Asks(s, nodeId, env) {
      Granting(l, mode, env);
    }
  }

  lemma Granting(l: State, mode: HelperMode, env: ConnectEnv)
    requires l.session.Some? && ActiveOf(l).None?
    ensures var t := GrantStep(l, mode, PreparationOf(env), env.helperStarts).0;
            var wasted := GrantIsWasted(env.client, env.answer);
            && SameCalls(l, t) && t.disk == l.disk && t.loaded == l.loaded && t.overwritten == l.overwritten
            && (env.answer.Denied? ==> t == l)
            && (!env.answer.Denied? ==>
                var config := env.answer.connection;
                && t.acquired == l.acquired + multiset{config}
                && t.stranded == Booked(l.stranded, config, wasted)
                && t.released == Booked(l.released, config, !wasted && !env.helperStarts)
                && t.session == Some(Session(
                  l.session.value.nodes,
                  if !wasted && env.helperStarts then Some(Connection(mode, config)) else None)))
  {
    FailsAfterGrantIff(env.client, env.answer);
  }

  // ----- Releasing

  /** A call of `stop` or `cleanup` waits for the lock once the helper has answered. */
  lemma Waiting(s: State, mode: HelperMode)
    ensures var t := Apply(s, HelperStopped(mode));
            && t.releasing == s.releasing + multiset{mode}
            && t == s.(releasing := t.releasing)
  {
  }

  /** An awaited release of the record's own mode takes it off record and asks the server, once, to end it. */
  lemma Releasing(s: State, c: Connection, serverAgrees: bool)
    requires ActiveOf(s) == Some(c) && c.mode in s.releasing
    ensures var t := Apply(s, Release(c.mode, serverAgrees));
            && t.session == Some(Session(s.session.value.nodes, None)) && ActiveOf(t).None?
            && t.released == s.released + multiset{c.config}
            && t.acquired == s.acquired && t.overwritten == s.overwritten && t.stranded == s.stranded
            && t.releasing == s.releasing - multiset{c.mode}
            && t.configuring == s.configuring && t.disk == s.disk && t.loaded == s.loaded
  {
  }

  /** Any other release leaves record and account; it is over if it was awaited, and does not happen if not. */
  lemma ReleasingNothing(s: State, mode: HelperMode, serverAgrees: bool)
    requires mode in s.releasing ==> ActiveOf(s).None? || ActiveOf(s).value.mode != mode
    ensures Apply(s, Release(mode, serverAgrees)) == s.(releasing := s.releasing - multiset{mode})
  {
    if mode !in s.releasing {
      assert s.releasing - multiset{mode} == s.releasing;
    }
  }

  // ----- Resetting and reconfiguring

  /** A reset is refused with a connection on record; otherwise it ends the session once the secrets are deleted. */
  lemma Resetting(s: State, secretsDeleted: bool, filesRemoved: bool, diskAfter: Disk)
    ensures var (t, verdict) := ResetStep(s, secretsDeleted, filesRemoved, diskAfter);
            && Apply(s, Reset(secretsDeleted, filesRemoved, diskAfter)) == t
            && verdict == (if ActiveOf(s).Some? then Err(DisconnectRequired)
                           else if secretsDeleted && filesRemoved then Ok(()) else Err(StorageFailed))
            && SameAccount(s, t) && SameCalls(s, t)
            && t.disk == (if ActiveOf(s).Some? then s.disk else diskAfter)
            && t.session == (if ActiveOf(s).None? && secretsDeleted then None else s.session)
            && t.loaded == (s.loaded || (ActiveOf(s).None? && secretsDeleted))
  {
  }

  /** The work before the lock of `auth_configure`: it reports the first step that fails. */
  lemma Preparing(disk: Disk, env: ConfigureEnv)
    ensures var (after, verdict) := ConfigureWork(disk, env);
            && verdict == (if !env.validCode then Err(InvalidCompanyCode)
                           else if !env.discovered then Err(CompanyDiscoveryFailed)
                           else if !env.faults.save.Saved? then Err(ConfigureFailed(AuthStorageFailed))
                           else if env.faults.key != NoFault || env.faults.totp != NoFault
                                   || env.faults.account != NoFault || env.faults.socks5 != NoFault
                           then Err(ConfigureFailed(SecretStorageFailed))
                           else if env.faults.client then Err(ConfigureFailed(AuthClientFailed))
                           else Ok(()))
            && after == if env.validCode && env.discovered then CreateProfile(disk, env.pair, env.faults).0 else disk
  {
    CreateVerdict(disk, env.pair, env.faults);
  }

  lemma Storing(s: State, completes: bool, diskAfter: Disk)
    ensures var t := Apply(s, StoreProfile(completes, diskAfter));
            && t.disk == diskAfter && t.configuring == (if completes then s.configuring + 1 else s.configuring)
            && t.loaded == s.loaded && t.session == s.session && t.releasing == s.releasing && SameAccount(s, t)
  {
  }

  /** An awaited reconfiguration starts an empty session, and books what was on record as overwritten. */
  lemma Configuring(s: State)
    ensures var t := Apply(s, Configure);
            if s.configuring == 0 then t == s
            else
              && t.session == Some(Session([], None)) && t.loaded && t.configuring == s.configuring - 1
              && t.overwritten == s.overwritten + OnRecord(s)
              && t.acquired == s.acquired && t.released == s.released && t.stranded == s.stranded
              && t.releasing == s.releasing && t.disk == s.disk
  {
    if s.configuring > 0 && ActiveOf(s).None? {
      assert s.overwritten + multiset{} == s.overwritten;
    }
  }

  // ----- How long a record lasts

  /** In this state, this event ends the record of a connection of the given mode. */
  ghost predicate Ends(s: State, event: Event, mode: HelperMode) {
    || (event.Release? && event.mode == mode && mode in s.releasing)
    || (event.Configure? && s.configuring > 0)
  }

  lemma ReleaseEndsOwn(s: State, mode: HelperMode, serverAgrees: bool, c: Connection)
    requires ActiveOf(s) == Some(c)
    ensures var t := Apply(s, Release(mode, serverAgrees));
            if mode == c.mode && mode in s.releasing then ActiveOf(t).None?
            else ActiveOf(t) == Some(c) && SameAccount(s, t)
  {
    if mode == c.mode && mode in s.releasing {
      Releasing(s, c, serverAgrees);
    } else {
      ReleasingNothing(s, mode, serverAgrees);
    }
  }

  lemma RecordStep(s: State, event: Event, c: Connection)
    requires Proper(s) && ActiveOf(s) == Some(c)
    ensures Ends(s, event, c.mode) ==> ActiveOf(Apply(s, event)).None?
    ensures !Ends(s, event, c.mode) ==> ActiveOf(Apply(s, event)) == Some(c) && SameAccount(s, Apply(s, event))
  {
    match event
    case Initialize(faults) => Loading(s, faults);
    case RefreshNodes(faults, needLogin, nodes) =>
      Loading(s, faults);
      Refreshing(s, faults, needLogin, nodes);
    case Connect(mode, nodeId, env) =>
      Loading(s, env.faults);
      Connecting(s, mode, nodeId, env);
    case HelperStopped(mode) => Waiting(s, mode);
    case Release(mode, serverAgrees) => ReleaseEndsOwn(s, mode, serverAgrees, c);
    case Reset(secretsDeleted, filesRemoved, diskAfter) => Resetting(s, secretsDeleted, filesRemoved, diskAfter);
    case StoreProfile(completes, diskAfter) => Storing(s, completes, diskAfter);
    case Configure => Configuring(s);
  }

  /** No event of the run, in the state it meets, ends the record. */
  ghost predicate NeverEnds(s: State, events: seq<Event>, mode: HelperMode)
    decreases |events|
  {
    events == [] ||
    var n := |events| - 1;
    NeverEnds(s, events[..n], mode) && !Ends(Run(s, events[..n]), events[n], mode)
  }

  /** The connection is on record all along the run. */
  ghost predicate OnRecordThroughout(s: State, events: seq<Event>, c: Connection)
    decreases |events|
  {
    ActiveOf(Run(s, events)) == Some(c) && (events == [] || OnRecordThroughout(s, events[..|events| - 1], c))
  }

  /**
   A connection stays on record through a run if and only if no awaited release of its own mode and no awaited
   reconfiguration occurs in it; releases of the other mode, resets, refreshes and connects do not matter. As
   long as it stays, the account stays as it is.
   */
  lemma {:induction false} RecordSurvivesIff(s: State, events: seq<Event>, c: Connection)
    requires Proper(s) && ActiveOf(s) == Some(c)
    ensures OnRecordThroughout(s, events, c) <==> NeverEnds(s, events, c.mode)
    ensures NeverEnds(s, events, c.mode) ==> SameAccount(s, Run(s, events))
    decreases |events|
  {
    if events != [] {
      var init, last := events[..|events| - 1], events[|events| - 1];
      RecordSurvivesIff(s, init, c);
      if NeverEnds(s, init, c.mode) {
        RunIsProper(s, init);
        assert ActiveOf(Run(s, init)) == Some(c);
        RecordStep(Run(s, init), last, c);
      }
    }
  }

  /** After a reset there is no session, whatever happens, until an awaited reconfiguration. */
  lemma {:induction false} NoSessionUntilConfigured(s: State, events: seq<Event>)
    requires s.loaded && s.session.None?
    requires forall i :: 0 <= i < |events| ==> !events[i].Configure?
    ensures Run(s, events).loaded && Run(s, events).session.None? && SameAccount(s, Run(s, events))
    decreases |events|
  {
    if events != [] {
      NoSessionUntilConfigured(s, events[..|events| - 1]);
      NoSessionStep(Run(s, events[..|events| - 1]), events[|events| - 1]);
    }
  }

  lemma NoSessionStep(s: State, event: Event)
    requires s.loaded && s.session.None? && !event.Configure?
    ensures var t := Apply(s, event);
            t.loaded && t.session.None? && SameAccount(s, t)
  {
    match event
    case Initialize(faults) => Loading(s, faults);
    case RefreshNodes(faults, needLogin, nodes) =>
      Loading(s, faults);
      Refreshing(s, faults, needLogin, nodes);
    case Connect(mode, nodeId, env) =>
      Loading(s, env.faults);
      Connecting(s, mode, nodeId, env);
    case HelperStopped(mode) => Waiting(s, mode);
    case Release(mode, serverAgrees) => ReleasingNothing(s, mode, serverAgrees);
    case Reset(secretsDeleted, filesRemoved, diskAfter) => Resetting(s, secretsDeleted, filesRemoved, diskAfter);
    case StoreProfile(completes, diskAfter) => Storing(s, completes, diskAfter);
  }

  /**
   From connect to stop: a connection that went on record, then any run that does not end it, then the helper's
   answer to a stop and the release. The server was asked to end exactly this connection, and the next connect
   is not refused as already connected.
   */
  lemma StopGivesBack(s: State, events: seq<Event>, c: Connection, serverAgrees: bool, next: ConnectEnv, nodeId: int)
    requires Proper(s) && ActiveOf(s) == Some(c) && NeverEnds(s, events, c.mode)
    ensures var t := Run(s, events + [HelperStopped(c.mode)] + [Release(c.mode, serverAgrees)]);
            && ActiveOf(t).None? && t.released == s.released + multiset{c.config}
            && t.acquired == s.acquired && t.overwritten == s.overwritten && t.stranded == s.stranded
            && ConnectStep(t, c.mode, nodeId, next).1 != Err(AlreadyConnected)
  {
    RecordSurvivesIff(s, events, c);
    RunIsProper(s, events);
    var before := Run(s, events);
    assert ActiveOf(before) == Some(c);
    Waiting(before, c.mode);
    RunSnoc(s, events, HelperStopped(c.mode));
    RunSnoc(s, events + [HelperStopped(c.mode)], Release(c.mode, serverAgrees));
    var waiting := Run(s, events + [HelperStopped(c.mode)]);
    assert ActiveOf(waiting) == Some(c);
    Releasing(waiting, c, serverAgrees);
    var t := Run(s, events + [HelperStopped(c.mode)] + [Release(c.mode, serverAgrees)]);
    NotAlreadyConnected(t, c.mode, nodeId, next);
  }

  lemma NotAlreadyConnected(t: State, mode: HelperMode, nodeId: int, env: ConnectEnv)
    requires ActiveOf(t).None?
    ensures ConnectStep(t, mode, nodeId, env).1 != Err(AlreadyConnected)
  {
    ConnectVerdict(t, mode, nodeId, env);
  }
}
