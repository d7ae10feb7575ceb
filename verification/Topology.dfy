/** The records of config.yaml that the commander rewrites and the proxy reads. */
module Topology {
  import opened Base

  const DYNAMIC: int := -1

  /** The two ends of a connection. */
  datatype Side = A | B

  function Other(s: Side): Side {
    if s == A then B else A
  }

  datatype Destination = Destination(ip: string, port: Option<int>)

  /** One UDP connection through the proxy; `aRecv` is entityA_proxy_port_recv and so on. */
  datatype Connection = Connection(
    aIp: string, aPort: int, aRecv: int, aSend: int,
    bIp: string, bPort: int, bRecv: int, bSend: int)
  {
    function Ip(s: Side): string { if s == A then aIp else bIp }
    function Port(s: Side): int { if s == A then aPort else bPort }
    function RecvPort(s: Side): int { if s == A then aRecv else bRecv }
    function SendPort(s: Side): int { if s == A then aSend else bSend }
    predicate Dynamic(s: Side) { Port(s) == DYNAMIC }
    function ProxyPorts(): seq<int> { [aRecv, aSend, bRecv, bSend] }
  }

  datatype TcpRedirection = TcpRedirection(serverIp: string, serverPort: int, proxyPort: int)

  /** An absent key is None, except that an absent `fuzzed` is false. */
  datatype Entity = Entity(
    role: string, protocol: Option<string>, ip: string, port: Option<int>, fuzzed: bool,
    destinations: seq<Destination>,
    connections: Option<seq<Connection>>, tcpRedirections: Option<seq<TcpRedirection>>)
  {
    predicate Udp() { protocol == Some("udp") }
    predicate Fuzzer() { role == "fuzzer" }
  }
}
