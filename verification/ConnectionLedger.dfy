/**
 The desktop controller of `apps/desktop/src-tauri/src/controller.rs`: which server-side VPN
 connections it takes and gives back.

 Each section that runs under the `auth` lock is one atomic event. `stop` and `cleanup` talk to the
 helper before they take the lock, and `auth_configure` writes the profile before it does, so what they
 do under the lock is a later event of its own, and other events may come in between. The outcomes of
 everything outside the controller are part of the event.
 */
module ConnectionLedger {
  import opened Wrappers
  import opened SecretMigration
  import opened RoutePipeline
  import opened TunnelPreparation

  datatype HelperMode = SystemSplit | Socks5

  datatype Node = Node(id: int, name: string)

  datatype Connection = Connection(mode: HelperMode, config: WgConf)

  datatype Session = Session(nodes: seq<Node>, active: Option<Connection>)

  datatype Failure =
    | LoadFailed(error: LoadError)
    | InvalidCompanyCode
    | CompanyDiscoveryFailed
    | ConfigureFailed(error: LoadError)
    | NotConfigured
    | AuthenticationRequired
    | AlreadyConnected
    | NodeNotFound
    | HelperUnavailable
    | TunnelPrepareFailed
    | HelperRejected
    | ServerDisconnectFailed
    | DisconnectRequired
    | StorageFailed
    | NodeListFailed

  /**
   The controller's state, the disk, and an account of the server side: connections the server granted,
   connections the controller asked it to end, connections whose record was overwritten, and connections
   that were granted to a command that then failed to prepare a tunnel from them.
   `releasing` are the `stop` and `cleanup` calls that wait for the lock, `configuring` counts the
   `auth_configure` calls that do.
   */
  datatype State = State(
    loaded: bool,
    session: Option<Session>,
    disk: Disk,
    acquired: multiset<WgConf>,
    released: multiset<WgConf>,
    overwritten: multiset<WgConf>,
    stranded: multiset<WgConf>,
    releasing: multiset<HelperMode>,
    configuring: nat)

  type Verdict = Result<(), Failure>

  datatype ConnectEnv = ConnectEnv(
    faults: Faults, needLogin: bool, helperReady: bool, client: ClientSide, answer: Answer, helperStarts: bool)

  /** How `connect_vpn_node` ends. */
  function PreparationOf(env: ConnectEnv): Preparation {
    Prepare(env.client, env.answer)
  }

  datatype ConfigureEnv = ConfigureEnv(validCode: bool, discovered: bool, pair: KeyPair, faults: ConfigureFaults)

  datatype Event =
    | Initialize(faults: Faults)
    | RefreshNodes(faults: Faults, needLogin: bool, nodes: Option<seq<Node>>)
    | Connect(mode: HelperMode, nodeId: int, env: ConnectEnv)
    | HelperStopped(mode: HelperMode)
    | Release(mode: HelperMode, serverAgrees: bool)
    | Reset(secretsDeleted: bool, filesRemoved: bool, diskAfter: Disk)
    | StoreProfile(completes: bool, diskAfter: Disk)
    | Configure

  function FindNode(nodes: seq<Node>, id: int): Option<Node> {
    if nodes == [] then None else if nodes[0].id == id then Some(nodes[0]) else FindNode(nodes[1..], id)
  }

  function ActiveOf(s: State): Option<Connection> {
    if s.session.Some? then s.session.value.active else None
  }

  function LoadIfNeeded(s: State, faults: Faults): (State, Verdict) {
    if s.loaded then (s, Ok(()))
    else
      var (disk, outcome) := Load(s.disk, faults);
      match outcome
      case Err(error) => (s.(disk := disk), Err(LoadFailed(error)))
      case Ok(None) => (s.(loaded := true), Ok(()))
      case Ok(Some(_)) => (s.(loaded := true, session := Some(Session([], None)), disk := disk), Ok(()))
  }

  function RefreshStep(s: State, faults: Faults, needLogin: bool, nodes: Option<seq<Node>>): (State, Verdict) {
    var (l, loaded) := LoadIfNeeded(s, faults);
    if loaded.Err? then (l, loaded)
    else if l.session.None? then (l, Err(NotConfigured))
    else if needLogin then (l, Err(AuthenticationRequired))
    else if nodes.None? then (l, Err(NodeListFailed))
    else (l.(session := Some(l.session.value.(nodes := nodes.value))), Ok(()))
  }

  /** What becomes of the server's answer, once it was asked. */
  function GrantStep(l: State, mode: HelperMode, preparation: Preparation, helperStarts: bool): (State, Verdict)
    requires l.session.Some?
  {
    match preparation
    case NotGranted => (l, Err(TunnelPrepareFailed))
    case GrantedThenFailed(config) =>
      (l.(acquired := l.acquired + multiset{config}, stranded := l.stranded + multiset{config}),
       Err(TunnelPrepareFailed))
    case Prepared(config, _) =>
      var granted := l.(acquired := l.acquired + multiset{config});
      if helperStarts then
        (granted.(session := Some(l.session.value.(active := Some(Connection(mode, config))))), Ok(()))
      else
        (granted.(released := granted.released + multiset{config}), Err(HelperRejected))
  }

  /** The checks of `connect` pass, so the server is asked. */
  predicate Asks(s: State, nodeId: int, env: ConnectEnv) {
    var (l, loaded) := LoadIfNeeded(s, env.faults);
    && loaded.Ok? && l.session.Some? && !env.needLogin && l.session.value.active.None?
    && FindNode(l.session.value.nodes, nodeId).Some? && env.helperReady
  }

  /** Those checks in the order of `connect`. */
  function Checks(s: State, nodeId: int, env: ConnectEnv): (verdict: Verdict)
    ensures verdict.Ok? <==> Asks(s, nodeId, env)
  {
    var (l, loaded) := LoadIfNeeded(s, env.faults);
    if loaded.Err? then loaded
    else if l.session.None? then Err(NotConfigured)
    else if env.needLogin then Err(AuthenticationRequired)
    else if l.session.value.active.Some? then Err(AlreadyConnected)
    else if FindNode(l.session.value.nodes, nodeId).None? then Err(NodeNotFound)
    else if !env.helperReady then Err(HelperUnavailable)
    else Ok(())
  }

  function ConnectStep(s: State, mode: HelperMode, nodeId: int, env: ConnectEnv): (State, Verdict) {
    var l := LoadIfNeeded(s, env.faults).0;
    var checked := Checks(s, nodeId, env);
    if checked.Err? then (l, checked) else GrantStep(l, mode, PreparationOf(env), env.helperStarts)
  }

  function ReleaseStep(s: State, mode: HelperMode, serverAgrees: bool): (State, Verdict) {
    var active := ActiveOf(s);
    if active.None? || active.value.mode != mode then (s, Ok(()))
    else
      (s.(session := Some(s.session.value.(active := None)),
          released := s.released + multiset{active.value.config}),
       if serverAgrees then Ok(()) else Err(ServerDisconnectFailed))
  }

  function ResetStep(s: State, secretsDeleted: bool, filesRemoved: bool, diskAfter: Disk): (State, Verdict) {
    if ActiveOf(s).Some? then (s, Err(DisconnectRequired))
    else if !secretsDeleted then (s.(disk := diskAfter), Err(StorageFailed))
    else
      (s.(loaded := true, session := None, disk := diskAfter), if filesRemoved then Ok(()) else Err(StorageFailed))
  }

  /** The work of `auth_configure` before it takes the lock: the disk it leaves, and its outcome. */
  function ConfigureWork(disk: Disk, env: ConfigureEnv): (Disk, Verdict) {
    if !env.validCode then (disk, Err(InvalidCompanyCode))
    else if !env.discovered then (disk, Err(CompanyDiscoveryFailed))
    else
      var (after, created) := CreateProfile(disk, env.pair, env.faults);
      (after, if created.Err? then Err(ConfigureFailed(created.error)) else Ok(()))
  }

  /** That work as an event; it may stop halfway. */
  function StoreStep(s: State, completes: bool, diskAfter: Disk): State {
    s.(disk := diskAfter, configuring := s.configuring + if completes then 1 else 0)
  }

  /** Under the lock `auth_configure` replaces the session, whatever it holds. */
  function ConfigureStep(s: State): State {
    var lost := if ActiveOf(s).Some? then multiset{ActiveOf(s).value.config} else multiset{};
    s.(loaded := true, session := Some(Session([], None)), overwritten := s.overwritten + lost)
  }

  /** One event. A release or a reconfiguration that nobody is waiting for does not happen. */
  function Apply(s: State, event: Event): State {
    match event
    case Initialize(faults) => LoadIfNeeded(s, faults).0
    case RefreshNodes(faults, needLogin, nodes) => RefreshStep(s, faults, needLogin, nodes).0
    case Connect(mode, nodeId, env) => ConnectStep(s, mode, nodeId, env).0
    case HelperStopped(mode) => s.(releasing := s.releasing + multiset{mode})
    case Release(mode, serverAgrees) =>
      if mode in s.releasing then ReleaseStep(s.(releasing := s.releasing - multiset{mode}), mode, serverAgrees).0 else s
    case Reset(secretsDeleted, filesRemoved, diskAfter) => ResetStep(s, secretsDeleted, filesRemoved, diskAfter).0
    case StoreProfile(completes, diskAfter) => StoreStep(s, completes, diskAfter)
    case Configure => if s.configuring > 0 then ConfigureStep(s.(configuring := s.configuring - 1)) else s
  }

  function Run(s: State, events: seq<Event>): State
    decreases |events|
  {
    if events == [] then s else Apply(Run(s, events[..|events| - 1]), events[|events| - 1])
  }

  function Startup(disk: Disk): State {
    State(false, None, disk, multiset{}, multiset{}, multiset{}, multiset{}, multiset{}, 0)
  }

  class AppController {
    const vault: Vault
    var loaded: bool
    var session: Option<Session>
    ghost var acquired: multiset<WgConf>
    ghost var released: multiset<WgConf>
    ghost var overwritten: multiset<WgConf>
    ghost var stranded: multiset<WgConf>
    ghost var releasing: multiset<HelperMode>
    ghost var configuring: nat

    ghost function View(): State
      reads this, vault
    {
      State(loaded, session, vault.View(), acquired, released, overwritten, stranded, releasing, configuring)
    }

    constructor (disk: Disk)
      ensures fresh(vault)
      ensures View() == Startup(disk)
      ensures !loaded && session.None? && vault.file == disk.file && vault.store == disk.store
      ensures acquired == released == overwritten == stranded == multiset{}
      ensures releasing == multiset{} && configuring == 0
    {
      vault := new Vault(disk);
      loaded, session := false, None;
      acquired, released, overwritten, stranded := multiset{}, multiset{}, multiset{}, multiset{};
      releasing, configuring := multiset{}, 0;
    }

    method LoadAuthIfNeeded(faults: Faults) returns (verdict: Verdict)
      modifies this, vault
      ensures (View(), verdict) == LoadIfNeeded(old(View()), faults)
    {
      if loaded {
        return Ok(());
      }
      var outcome := vault.LoadProfile(faults);
      match outcome {
        case Err(error) => return Err(LoadFailed(error));
        case Ok(None) =>
        case Ok(Some(_)) => session := Some(Session([], None));
      }
      loaded := true;
      return Ok(());
    }

    method AuthRefreshNodes(faults: Faults, needLogin: bool, nodes: Option<seq<Node>>) returns (verdict: Verdict)
      modifies this, vault
      ensures (View(), verdict) == RefreshStep(old(View()), faults, needLogin, nodes)
    {
      verdict := LoadAuthIfNeeded(faults);
      if verdict.Err? {
        return;
      }
      if session.None? {
        return Err(NotConfigured);
      }
      if needLogin {
        return Err(AuthenticationRequired);
      }
      if nodes.None? {
        return Err(NodeListFailed);
      }
      session := Some(session.value.(nodes := nodes.value));
    }

    method Connect(mode: HelperMode, nodeId: int, env: ConnectEnv) returns (verdict: Verdict)
      modifies this, vault
      ensures (View(), verdict) == ConnectStep(old(View()), mode, nodeId, env)
    {
      verdict := LoadAuthIfNeeded(env.faults);
      if verdict.Err? {
        return;
      }
      if session.None? {
        return Err(NotConfigured);
      }
      if env.needLogin {
        return Err(AuthenticationRequired);
      }
      if session.value.active.Some? {
        return Err(AlreadyConnected);
      }
      var node := FindNode(session.value.nodes, nodeId);
      if node.None? {
        return Err(NodeNotFound);
      }
      if !env.helperReady {
        return Err(HelperUnavailable);
      }
      verdict := ConnectNode(mode, env);
    }

    /** From the request to the server on. */
    method ConnectNode(mode: HelperMode, env: ConnectEnv) returns (verdict: Verdict)
      requires session.Some?
      modifies this`session, this`acquired, this`released, this`stranded
      ensures (View(), verdict) == GrantStep(old(View()), mode, PreparationOf(env), env.helperStarts)
    {
      var preparation := ConnectVpnSelected(env.client, env.answer);
      match preparation {
        case NotGranted =>
          return Err(TunnelPrepareFailed);
        case GrantedThenFailed(config) =>
          acquired := acquired + multiset{config};
          stranded := stranded + multiset{config};
          return Err(TunnelPrepareFailed);
        case Prepared(config, _) =>
          acquired := acquired + multiset{config};
          if env.helperStarts {
            session := Some(session.value.(active := Some(Connection(mode, config))));
            return Ok(());
          }
          released := released + multiset{config};
          return Err(HelperRejected);
      }
    }

    method ReleaseServerConnection(mode: HelperMode, serverAgrees: bool) returns (verdict: Verdict)
      modifies this
      ensures (View(), verdict) == ReleaseStep(old(View()), mode, serverAgrees)
      ensures old(ActiveOf(View()).Some? && ActiveOf(View()).value.mode == mode) ==>
              && ActiveOf(View()).None?
              && released == old(released) + multiset{old(ActiveOf(View()).value.config)}
              && verdict == if serverAgrees then Ok(()) else Err(ServerDisconnectFailed)
      ensures !old(ActiveOf(View()).Some? && ActiveOf(View()).value.mode == mode) ==>
              View() == old(View()) && verdict == Ok(())
    {
      if session.None? {
        return Ok(());
      }
      var taken := session.value.active;
      if taken.None? {
        return Ok(());
      }
      session := Some(session.value.(active := None));
      if taken.value.mode != mode {
        session := Some(session.value.(active := taken));
        return Ok(());
      }
      released := released + multiset{taken.value.config};
      verdict := if serverAgrees then Ok(()) else Err(ServerDisconnectFailed);
    }

    /** `stop` and `cleanup`, when nothing comes between the helper's answer and the lock. */
    method Stop(mode: HelperMode, helperAnswers: bool, serverAgrees: bool) returns (verdict: Verdict)
      modifies this
      ensures !helperAnswers ==> View() == old(View()) && verdict == Err(HelperUnavailable)
      ensures helperAnswers ==>
              && View() == Apply(Apply(old(View()), HelperStopped(mode)), Release(mode, serverAgrees))
              && verdict == ReleaseStep(old(View()), mode, serverAgrees).1
      ensures helperAnswers ==>
              (verdict.Err? <==>
               old(ActiveOf(View()).Some? && ActiveOf(View()).value.mode == mode) && !serverAgrees)
    {
      if !helperAnswers {
        return Err(HelperUnavailable);
      }
      StopIsTwoEvents(View(), mode, serverAgrees);
      verdict := ReleaseServerConnection(mode, serverAgrees);
    }

    method AuthReset(secretsDeleted: bool, filesRemoved: bool, diskAfter: Disk) returns (verdict: Verdict)
      modifies this, vault
      ensures (View(), verdict) == ResetStep(old(View()), secretsDeleted, filesRemoved, diskAfter)
    {
      if session.Some? && session.value.active.Some? {
        return Err(DisconnectRequired);
      }
      vault.file, vault.store := diskAfter.file, diskAfter.store;
      if !secretsDeleted {
        return Err(StorageFailed);
      }
      loaded := true;
      session := None;
      verdict := if filesRemoved then Ok(()) else Err(StorageFailed);
    }

    /** `auth_configure`, when nothing comes between its work and the lock. */
    method AuthConfigure(env: ConfigureEnv) returns (verdict: Verdict)
      modifies this, vault
      ensures var (diskAfter, outcome) := ConfigureWork(old(View()).disk, env);
              var stored := Apply(old(View()), StoreProfile(outcome.Ok?, diskAfter));
              verdict == outcome && View() == if outcome.Ok? then Apply(stored, Configure) else stored
    {
      if !env.validCode {
        return Err(InvalidCompanyCode);
      }
      if !env.discovered {
        return Err(CompanyDiscoveryFailed);
      }
      var created := vault.CreateDesktopProfile(env.pair, env.faults);
      if created.Err? {
        return Err(ConfigureFailed(created.error));
      }
      ConfigureIsTwoEvents(old(View()), vault.View());
      ReplaceSession();
      return Ok(());
    }

    /** The part of `auth_configure` under the lock. */
    method ReplaceSession()
      modifies this`loaded, this`session, this`overwritten
      ensures View() == ConfigureStep(old(View()))
    {
      overwritten := overwritten +
        if session.Some? && session.value.active.Some? then multiset{session.value.active.value.config} else multiset{};
      loaded := true;
      session := Some(Session([], None));
    }
  }

  lemma StopIsTwoEvents(s: State, mode: HelperMode, serverAgrees: bool)
    ensures Apply(Apply(s, HelperStopped(mode)), Release(mode, serverAgrees)) == ReleaseStep(s, mode, serverAgrees).0
  {
    var waiting := s.(releasing := s.releasing + multiset{mode});
    assert Apply(s, HelperStopped(mode)) == waiting;
    assert waiting.releasing - multiset{mode} == s.releasing;
    assert waiting.(releasing := waiting.releasing - multiset{mode}) == s;
  }

  lemma ConfigureIsTwoEvents(s: State, diskAfter: Disk)
    ensures Apply(Apply(s, StoreProfile(true, diskAfter)), Configure) == ConfigureStep(s.(disk := diskAfter))
  {
    var stored := s.(disk := diskAfter, configuring := s.configuring + 1);
    assert Apply(s, StoreProfile(true, diskAfter)) == stored;
    assert stored.(configuring := stored.configuring - 1) == s.(disk := diskAfter);
  }

  // ----- Conservation

  /** The connection on record. */
  function OnRecord(s: State): multiset<WgConf> {
    if ActiveOf(s).Some? then multiset{ActiveOf(s).value.config} else multiset{}
  }

  /** Every granted connection was given back, overwritten or stranded, or is on record; each exactly once. */
  ghost predicate Balanced(s: State) {
    && s.acquired == s.released + s.overwritten + s.stranded + OnRecord(s)
    && (s.session.Some? ==> s.loaded)
  }

  lemma LoadKeepsBalance(s: State, faults: Faults)
    requires Balanced(s)
    ensures Balanced(LoadIfNeeded(s, faults).0)
  {
  }

  lemma ConnectKeepsBalance(s: State, mode: HelperMode, nodeId: int, env: ConnectEnv)
    requires Balanced(s)
    ensures Balanced(ConnectStep(s, mode, nodeId, env).0)
  {
    LoadKeepsBalance(s, env.faults);
    ConnectIsGrant(s, mode, nodeId, env);
    if Asks(s, nodeId, env) {
      GrantKeepsBalance(LoadIfNeeded(s, env.faults).0, mode, PreparationOf(env), env.helperStarts);
    }
  }

  /** A connect loads the session, and does no more unless its checks pass. */
  lemma ConnectIsGrant(s: State, mode: HelperMode, nodeId: int, env: ConnectEnv)
    ensures ConnectStep(s, mode, nodeId, env).0
         == var l := LoadIfNeeded(s, env.faults).0;
            if Asks(s, nodeId, env) then GrantStep(l, mode, PreparationOf(env), env.helperStarts).0 else l
  {
  }

  lemma GrantKeepsBalance(l: State, mode: HelperMode, preparation: Preparation, helperStarts: bool)
    requires Balanced(l) && l.session.Some? && ActiveOf(l).None?
    ensures Balanced(GrantStep(l, mode, preparation, helperStarts).0)
  {
    match preparation
    case NotGranted =>
    case GrantedThenFailed(config) => StrandingKeepsBalance(l, config);
    case Prepared(config, _) =>
      if helperStarts {
        RecordingKeepsBalance(l, Connection(mode, config));
      } else {
        GivingBackKeepsBalance(l, config);
      }
  }

  lemma StrandingKeepsBalance(s: State, config: WgConf)
    requires Balanced(s)
    ensures Balanced(s.(acquired := s.acquired + multiset{config}, stranded := s.stranded + multiset{config}))
  {
  }

  lemma GivingBackKeepsBalance(s: State, config: WgConf)
    requires Balanced(s)
    ensures Balanced(s.(acquired := s.acquired + multiset{config}, released := s.released + multiset{config}))
  {
  }

  lemma RecordingKeepsBalance(s: State, c: Connection)
    requires Balanced(s) && s.session.Some? && ActiveOf(s).None?
    ensures Balanced(s.(acquired := s.acquired + multiset{c.config},
                        session := Some(s.session.value.(active := Some(c)))))
  {
  }

  lemma WaitingKeepsBalance(s: State, releasing: multiset<HelperMode>)
    requires Balanced(s)
    ensures Balanced(s.(releasing := releasing))
  {
  }

  lemma ReleaseKeepsBalance(s: State, mode: HelperMode, serverAgrees: bool)
    requires Balanced(s)
    ensures Balanced(ReleaseStep(s, mode, serverAgrees).0)
  {
  }

  lemma ConfigureKeepsBalance(s: State)
    requires Balanced(s)
    ensures Balanced(ConfigureStep(s))
  {
  }

  lemma StoreKeepsBalance(s: State, disk: Disk, configuring: nat)
    requires Balanced(s)
    ensures Balanced(s.(disk := disk, configuring := configuring))
  {
  }

  lemma ResetKeepsBalance(s: State, secretsDeleted: bool, filesRemoved: bool, diskAfter: Disk)
    requires Balanced(s)
    ensures Balanced(ResetStep(s, secretsDeleted, filesRemoved, diskAfter).0)
  {
  }

  lemma RefreshKeepsBalance(s: State, faults: Faults, needLogin: bool, nodes: Option<seq<Node>>)
    requires Balanced(s)
    ensures Balanced(RefreshStep(s, faults, needLogin, nodes).0)
  {
    LoadKeepsBalance(s, faults);
  }

  lemma InitializeIsBalanced(s: State, faults: Faults)
    requires Balanced(s)
    ensures Balanced(Apply(s, Initialize(faults)))
  {
    LoadKeepsBalance(s, faults);
  }

  lemma RefreshIsBalanced(s: State, faults: Faults, needLogin: bool, nodes: Option<seq<Node>>)
    requires Balanced(s)
    ensures Balanced(Apply(s, RefreshNodes(faults, needLogin, nodes)))
  {
    RefreshKeepsBalance(s, faults, needLogin, nodes);
  }

  lemma ConnectIsBalanced(s: State, mode: HelperMode, nodeId: int, env: ConnectEnv)
    requires Balanced(s)
    ensures Balanced(Apply(s, Connect(mode, nodeId, env)))
  {
    ConnectKeepsBalance(s, mode, nodeId, env);
  }

  lemma HelperStoppedIsBalanced(s: State, mode: HelperMode)
    requires Balanced(s)
    ensures Balanced(Apply(s, HelperStopped(mode)))
  {
    WaitingKeepsBalance(s, s.releasing + multiset{mode});
  }

  lemma ReleaseIsBalanced(s: State, mode: HelperMode, serverAgrees: bool)
    requires Balanced(s)
    ensures Balanced(Apply(s, Release(mode, serverAgrees)))
  {
    var taken := s.(releasing := s.releasing - multiset{mode});
    WaitingKeepsBalance(s, taken.releasing);
    ReleaseKeepsBalance(taken, mode, serverAgrees);
  }

  lemma ResetIsBalanced(s: State, secretsDeleted: bool, filesRemoved: bool, diskAfter: Disk)
    requires Balanced(s)
    ensures Balanced(Apply(s, Reset(secretsDeleted, filesRemoved, diskAfter)))
  {
    ResetKeepsBalance(s, secretsDeleted, filesRemoved, diskAfter);
  }

  lemma StoreProfileIsBalanced(s: State, completes: bool, diskAfter: Disk)
    requires Balanced(s)
    ensures Balanced(Apply(s, StoreProfile(completes, diskAfter)))
  {
    StoreKeepsBalance(s, diskAfter, s.configuring + if completes then 1 else 0);
  }

  lemma ConfigureIsBalanced(s: State)
    requires Balanced(s)
    ensures Balanced(Apply(s, Configure))
  {
    if s.configuring > 0 {
      StoreKeepsBalance(s, s.disk, s.configuring - 1);
      ConfigureKeepsBalance(s.(configuring := s.configuring - 1));
    }
  }

  lemma EventKeepsBalance(s: State, event: Event)
    requires Balanced(s)
    ensures Balanced(Apply(s, event))
  {
    match event
    case Initialize(faults) => InitializeIsBalanced(s, faults);
    case RefreshNodes(faults, needLogin, nodes) => RefreshIsBalanced(s, faults, needLogin, nodes);
    case Connect(mode, nodeId, env) => ConnectIsBalanced(s, mode, nodeId, env);
    case HelperStopped(mode) => HelperStoppedIsBalanced(s, mode);
    case Release(mode, serverAgrees) => ReleaseIsBalanced(s, mode, serverAgrees);
    case Reset(secretsDeleted, filesRemoved, diskAfter) => ResetIsBalanced(s, secretsDeleted, filesRemoved, diskAfter);
    case StoreProfile(completes, diskAfter) => StoreProfileIsBalanced(s, completes, diskAfter);
    case Configure => ConfigureIsBalanced(s);
  }

  lemma {:induction false} RunIsBalanced(disk: Disk, events: seq<Event>)
    ensures Balanced(Run(Startup(disk), events))
    decreases |events|
  {
    if events != [] {
      RunIsBalanced(disk, events[..|events| - 1]);
      EventKeepsBalance(Run(Startup(disk), events[..|events| - 1]), events[|events| - 1]);
    }
  }

  /** Nothing granted is left over: all of it was given back, except the connection on record. */
  ghost predicate Conserved(s: State) {
    s.acquired == s.released + OnRecord(s)
  }

  /** A reconfiguration takes effect while a connection is on record. */
  ghost predicate Overwrites(s: State, event: Event) {
    event.Configure? && s.configuring > 0 && ActiveOf(s).Some?
  }

  /** The server grants a connection and the command fails before it has a tunnel configuration. */
  ghost predicate Strands(s: State, event: Event) {
    event.Connect? && PreparationOf(event.env).GrantedThenFailed? && Asks(s, event.nodeId, event.env)
  }

  /** When that happens can be read from the client's settings and the server's answer. */
  lemma StrandsIff(s: State, event: Event)
    ensures Strands(s, event) <==>
            event.Connect? && Asks(s, event.nodeId, event.env) && GrantIsWasted(event.env.client, event.env.answer)
  {
    if event.Connect? {
      FailsAfterGrantIff(event.env.client, event.env.answer);
    }
  }

  /** No event of the run, in the state it meets, overwrites the record. */
  ghost predicate NeverOverwrites(s: State, events: seq<Event>)
    decreases |events|
  {
    events == [] ||
    var n := |events| - 1;
    NeverOverwrites(s, events[..n]) && !Overwrites(Run(s, events[..n]), events[n])
  }

  /** No event of the run, in the state it meets, strands a connection. */
  ghost predicate NeverStrands(s: State, events: seq<Event>)
    decreases |events|
  {
    events == [] ||
    var n := |events| - 1;
    NeverStrands(s, events[..n]) && !Strands(Run(s, events[..n]), events[n])
  }

  /**
   Over every interleaving, server connections are conserved if and only if no reconfiguration took
   effect during a connection and no command failed between the server's grant and its tunnel
   configuration. `auth_configure` has no guard against the first (`auth_reset` has), and `connect` does
   not give the connection back in the second.
   */
  lemma ConservedIffNothingLost(disk: Disk, events: seq<Event>)
    ensures Conserved(Run(Startup(disk), events)) <==>
            NeverOverwrites(Startup(disk), events) && NeverStrands(Startup(disk), events)
  {
    RunIsBalanced(disk, events);
    OverwrittenIffOverwrites(Startup(disk), events);
    StrandedIffStrands(Startup(disk), events);
    BalancedConservation(Run(Startup(disk), events));
  }

  lemma BalancedConservation(s: State)
    requires Balanced(s)
    ensures Conserved(s) <==> s.overwritten == multiset{} && s.stranded == multiset{}
    ensures |s.acquired| == |s.released| + |s.overwritten| + |s.stranded| + if ActiveOf(s).Some? then 1 else 0
  {
    var kept, lost := s.released + OnRecord(s), s.overwritten + s.stranded;
    assert s.acquired == kept + lost;
    assert |s.acquired| == |kept| + |lost|;
  }

  lemma {:induction false} OverwrittenIffOverwrites(s: State, events: seq<Event>)
    requires s.overwritten == multiset{}
    ensures Run(s, events).overwritten == multiset{} <==> NeverOverwrites(s, events)
    decreases |events|
  {
    if events != [] {
      OverwrittenIffOverwrites(s, events[..|events| - 1]);
      OverwrittenStep(Run(s, events[..|events| - 1]), events[|events| - 1]);
    }
  }

  lemma OverwrittenStep(s: State, event: Event)
    ensures Apply(s, event).overwritten == multiset{} <==> s.overwritten == multiset{} && !Overwrites(s, event)
  {
    if event.Configure? {
      if s.configuring > 0 && ActiveOf(s).Some? {
        assert ActiveOf(s).value.config in Apply(s, event).overwritten;
      }
    } else {
      OthersDoNotOverwrite(s, event);
    }
  }

  lemma OthersDoNotOverwrite(s: State, event: Event)
    requires !event.Configure?
    ensures Apply(s, event).overwritten == s.overwritten
  {
  }

  lemma {:induction false} StrandedIffStrands(s: State, events: seq<Event>)
    requires s.stranded == multiset{}
    ensures Run(s, events).stranded == multiset{} <==> NeverStrands(s, events)
    decreases |events|
  {
    if events != [] {
      StrandedIffStrands(s, events[..|events| - 1]);
      StrandedStep(Run(s, events[..|events| - 1]), events[|events| - 1]);
    }
  }

  lemma StrandedStep(s: State, event: Event)
    ensures Apply(s, event).stranded == multiset{} <==> s.stranded == multiset{} && !Strands(s, event)
  {
    if event.Connect? {
      ConnectStrands(s, event.mode, event.nodeId, event.env);
      if Strands(s, event) {
        assert PreparationOf(event.env).config in Apply(s, event).stranded;
      }
    } else {
      OthersDoNotStrand(s, event);
    }
  }

  lemma ConnectStrands(s: State, mode: HelperMode, nodeId: int, env: ConnectEnv)
    ensures ConnectStep(s, mode, nodeId, env).0.stranded
         == s.stranded + if Asks(s, nodeId, env) && PreparationOf(env).GrantedThenFailed?
                         then multiset{PreparationOf(env).config} else multiset{}
  {
  }

  lemma OthersDoNotStrand(s: State, event: Event)
    requires !event.Connect?
    ensures Apply(s, event).stranded == s.stranded
  {
  }

  /**
   In numbers, when no record was overwritten: the connections that `connect_vpn_node` handed to the
   controller, which are the granted ones without the stranded ones, are as many as the release attempts,
   plus one exactly while a connection is on record.
   */
  lemma ConservedCount(disk: Disk, events: seq<Event>)
    requires NeverOverwrites(Startup(disk), events)
    ensures var s := Run(Startup(disk), events);
            |s.acquired| - |s.stranded| == |s.released| + if ActiveOf(s).Some? then 1 else 0
  {
    RunIsBalanced(disk, events);
    OverwrittenIffOverwrites(Startup(disk), events);
    BalancedConservation(Run(Startup(disk), events));
  }

  lemma RunSnoc(s: State, events: seq<Event>, event: Event)
    ensures Run(s, events + [event]) == Apply(Run(s, events), event)
  {
    assert (events + [event])[..|events|] == events;
  }

  /** Configure and list one node. */
  function Login(disk: Disk): seq<Event> {
    [StoreProfile(true, disk)] + [Configure] + [RefreshNodes(NoFaults(None), false, Some([Node(1, "node")]))]
  }

  /** The state `Login` ends in, with the given record and account. */
  function After(disk: Disk, active: Option<Connection>, acquired: multiset<WgConf>,
                 overwritten: multiset<WgConf>, stranded: multiset<WgConf>): State
  {
    State(true, Some(Session([Node(1, "node")], active)), disk,
          acquired, multiset{}, overwritten, stranded, multiset{}, 0)
  }

  lemma StoreThenConfigure(s: State, events: seq<Event>)
    ensures Run(s, events + [StoreProfile(true, Run(s, events).disk)] + [Configure]) == ConfigureStep(Run(s, events))
  {
    var store := StoreProfile(true, Run(s, events).disk);
    RunSnoc(s, events, store);
    RunSnoc(s, events + [store], Configure);
    ConfigureIsTwoEvents(Run(s, events), Run(s, events).disk);
  }

  lemma LoginRun(disk: Disk)
    ensures Run(Startup(disk), Login(disk)) == After(disk, None, multiset{}, multiset{}, multiset{})
  {
    var store := StoreProfile(true, disk);
    StoreThenConfigure(Startup(disk), []);
    assert [] + [store] == [store];
    RunSnoc(Startup(disk), [store] + [Configure], RefreshNodes(NoFaults(None), false, Some([Node(1, "node")])));
  }

  /** The connect of the two losing runs, with a reply that lists no routes. */
  function ConnectWith(mode: RouteMode, config: WgConf): Event {
    var client := ClientSide(RouteConfig(mode, None, [], None, None), None, true);
    var info := WgInfo("24", ServerReply([], [], [], [], false));
    Connect(SystemSplit, 1, ConnectEnv(NoFaults(None), false, true, client, Granted(config, info), true))
  }

  lemma PreparedIfSplit(mode: RouteMode, config: WgConf)
    ensures var preparation := PreparationOf(ConnectWith(mode, config).env);
            preparation.config == config && if mode.Split? then preparation.Prepared? else preparation.GrantedThenFailed?
  {
    var env := ConnectWith(mode, config).env;
    assert Digits("2") == Some(2) && "24"[..1] == "2";
    assert ParseU32(env.answer.info.ipMask) == Some(24);
    FailsAfterGrantIff(env.client, env.answer);
  }

  lemma LoginThenConnect(disk: Disk, mode: RouteMode, config: WgConf)
    ensures Run(Startup(disk), Login(disk) + [ConnectWith(mode, config)])
         == if mode.Split?
            then After(disk, Some(Connection(SystemSplit, config)), multiset{config}, multiset{}, multiset{})
            else After(disk, None, multiset{config}, multiset{}, multiset{config})
  {
    LoginRun(disk);
    PreparedIfSplit(mode, config);
    RunSnoc(Startup(disk), Login(disk), ConnectWith(mode, config));
  }

  /** A run that overwrites a record: configure, list the nodes, connect, configure again. */
  lemma ReconfiguringLosesAConnection(disk: Disk, config: WgConf)
    ensures var events := Login(disk) + [ConnectWith(Split, config)] + [StoreProfile(true, disk)] + [Configure];
            !Conserved(Run(Startup(disk), events)) && NeverStrands(Startup(disk), events)
  {
    var connect := Login(disk) + [ConnectWith(Split, config)];
    LoginThenConnect(disk, Split, config);
    StoreThenConfigure(Startup(disk), connect);
    StrandedIffStrands(Startup(disk), connect + [StoreProfile(true, disk)] + [Configure]);
    assert config in multiset{config};
  }

  /** A run that strands a connection: configure, list the nodes, and connect in full mode to a server without routes. */
  lemma FailedPreparationLosesAConnection(disk: Disk, config: WgConf)
    ensures var events := Login(disk) + [ConnectWith(Full, config)];
            !Conserved(Run(Startup(disk), events)) && NeverOverwrites(Startup(disk), events)
  {
    LoginThenConnect(disk, Full, config);
    OverwrittenIffOverwrites(Startup(disk), Login(disk) + [ConnectWith(Full, config)]);
    assert config in multiset{config};
  }

  /**
   The server is asked for a connection only with a logged-in session that has none on record, for a
   listed node and a running helper; the connection goes on record exactly when the command succeeds.
   */
  lemma ConnectIsGuarded(s: State, mode: HelperMode, nodeId: int, env: ConnectEnv)
    ensures var (after, verdict) := ConnectStep(s, mode, nodeId, env);
            && (after.acquired != s.acquired ==>
                && !env.needLogin && env.helperReady && !PreparationOf(env).NotGranted?
                && ActiveOf(LoadIfNeeded(s, env.faults).0).None?
                && LoadIfNeeded(s, env.faults).0.session.Some?
                && (exists i :: 0 <= i < |LoadIfNeeded(s, env.faults).0.session.value.nodes|
                               && LoadIfNeeded(s, env.faults).0.session.value.nodes[i].id == nodeId)
                && after.acquired == s.acquired + multiset{PreparationOf(env).config})
            && (verdict.Ok? ==>
                && after.acquired != s.acquired && PreparationOf(env).Prepared?
                && ActiveOf(after) == Some(Connection(mode, PreparationOf(env).config)))
            && (verdict.Err? ==> ActiveOf(after) == ActiveOf(LoadIfNeeded(s, env.faults).0))
  {
    var l := LoadIfNeeded(s, env.faults).0;
    if l.session.Some? {
      FindNodeFinds(l.session.value.nodes, nodeId);
    }
    if Asks(s, nodeId, env) {
      GrantRecords(l, mode, PreparationOf(env), env.helperStarts);
    }
  }

  lemma GrantRecords(l: State, mode: HelperMode, preparation: Preparation, helperStarts: bool)
    requires l.session.Some? && ActiveOf(l).None?
    ensures var (after, verdict) := GrantStep(l, mode, preparation, helperStarts);
            && (preparation.NotGranted? ==> after.acquired == l.acquired)
            && (!preparation.NotGranted? ==>
                after.acquired == l.acquired + multiset{preparation.config} != l.acquired)
            && (verdict.Ok? <==> preparation.Prepared? && helperStarts)
            && ActiveOf(after) == if verdict.Ok? then Some(Connection(mode, preparation.config)) else None
  {
    if !preparation.NotGranted? {
      var config := preparation.config;
      assert (l.acquired + multiset{config})[config] != l.acquired[config];
    }
  }

  lemma {:induction false} FindNodeFinds(nodes: seq<Node>, id: int)
    ensures FindNode(nodes, id).Some? <==> exists i :: 0 <= i < |nodes| && nodes[i].id == id
  {
    if nodes != [] {
      FindNodeFinds(nodes[1..], id);
      assert forall i :: 0 < i < |nodes| ==> nodes[i] == nodes[1..][i - 1];
      if i :| 0 <= i < |nodes[1..]| && nodes[1..][i].id == id {
        assert nodes[i + 1].id == id;
      }
    }
  }
}
