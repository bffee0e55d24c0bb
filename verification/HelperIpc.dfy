/** The messages of `crates/feilian-ipc`. Text is its UTF-8 bytes, and lengths fit a 64-bit `usize`. */
module HelperIpc {
  import opened Wrappers
  import opened Bytes

  type Text = s: seq<Byte> | |s| < U64_RANGE
  type TextList = ts: seq<Text> | |ts| < U64_RANGE
  type U32 = n: nat | n < U32_RANGE

  const PROTOCOL_VERSION: nat := 1

  datatype TransportProtocol = Udp | Tcp

  datatype TunnelMode =
    | SystemSplit
    | Socks5(listenAddr: Text, username: Option<Text>, password: Option<Text>)

  datatype TunnelSpec = TunnelSpec(
    nodeName: Text,
    interfaceName: Text,
    mode: TunnelMode,
    address: Text,
    address6: Text,
    peerAddress: Text,
    mtu: U32,
    publicKey: Text,
    privateKey: Text,
    peerKey: Text,
    allowedIps: TextList,
    routes: TextList,
    dns: Text,
    protocol: TransportProtocol)

  datatype TunnelKind = SystemSplitKind | Socks5Kind

  /** What a status reply shows of a tunnel: no keys and no passwords. */
  datatype ActiveTunnel = ActiveTunnel(
    nodeName: Text, interfaceName: Text, mode: TunnelKind, address: Text, protocol: TransportProtocol)

  function Summary(spec: TunnelSpec): ActiveTunnel {
    ActiveTunnel(spec.nodeName, spec.interfaceName,
                 if spec.mode.SystemSplit? then SystemSplitKind else Socks5Kind,
                 spec.address, spec.protocol)
  }

  datatype HelperState = Idle | Starting | Running | Stopping | Failed

  datatype TunnelStatus = TunnelStatus(state: HelperState, active: Option<ActiveTunnel>)

  datatype TunnelStats = TunnelStats(txBytes: nat, rxBytes: nat)

  datatype Command =
    | Hello
    | StartTunnel(spec: TunnelSpec)
    | StopTunnel
    | Status
    | Stats
    | Cleanup

  datatype Request = Request(protocolVersion: nat, requestId: nat, command: Command)

  datatype ErrorCode = ProtocolMismatch | AlreadyRunning | BackendFailure | InvalidRequest

  datatype Payload =
    | Greeting
    | Started(status: TunnelStatus)
    | Stopped(status: TunnelStatus)
    | CurrentStatus(status: TunnelStatus)
    | CurrentStats(stats: TunnelStats)
    | Cleaned(status: TunnelStatus)
    | Error(code: ErrorCode, message: string, retryable: bool)

  datatype Response = Response(requestId: nat, payload: Payload)
}
