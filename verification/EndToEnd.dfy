/** From the topology to the wire: a packet an entity sends to a listed destination is
    redirected to a proxy socket whose thread forwards it to that destination. */
module EndToEnd {
  import opened Base
  import opened Topology
  import opened PortNormalizer
  import opened Redirections
  import opened Commander
  import opened DnatRules
  import M = ProxyMachine
  import T = ProxyTheorems
  import L = ProxyLimits
  import U = UdpHandlers

  function End(l: Link, s: Side): Endpoint { if s == A then l.src else l.dst }

  /** `x` is at the other end of a link for which the entity at (ip, port) gets rules. */
  ghost predicate Peer(es: seq<Entity>, ip: string, port: int, x: Endpoint) {
    exists l, s: Side :: l in Links(es) && PeerVia(l, s, ip, port, x)
  }

  ghost predicate PeerVia(l: Link, s: Side, ip: string, port: int, x: Endpoint) {
    && End(l, s).ip == ip
    && (port == DYNAMIC || End(l, s).port == port || (s == B && End(l, s).port == DYNAMIC))
    && End(l, Other(s)) == x
  }

  /** Distinct peers on one IP have fixed ports. */
  ghost predicate Unambiguous(es: seq<Entity>, ip: string, port: int, dst: string) {
    forall p, q :: Peer(es, ip, port, Endpoint(dst, p)) && Peer(es, ip, port, Endpoint(dst, q)) && p != q
      ==> p != DYNAMIC && q != DYNAMIC
  }

  /** The packet meets a rule that sends it to the receive port of side `s` of connection `c`. */
  ghost predicate LeadsTo(rules: seq<Rule>, dst: string, dport: int, fuzzerIp: string, conns: seq<Connection>,
                          c: nat, s: Side)
  {
    c < |conns|
    && var m := FirstMatch(rules, dst, dport);
       m.Some? && m.value.Dnat? && m.value.toIp == fuzzerIp && m.value.toPort == conns[c].RecvPort(s)
  }

  ghost predicate GoesTo(t: M.Transmission, x: Endpoint) {
    t.ip == x.ip && (x.port != DYNAMIC ==> t.port == M.WirePort(x.port))
  }

  /** Whatever else happens, everything thread `tid` of `c` sends goes to `x`, to its port if
      that is fixed. */
  ghost predicate ForwardsOnlyTo(c: Connection, tid: M.Tid, x: Endpoint) {
    forall env, acts, t :: M.Legal(c, env, acts) && t in M.Run(c, env, acts).sent[tid]
      ==> GoesTo(t, x)
  }

  lemma ThreadForwards(c: Connection, tid: M.Tid)
    ensures ForwardsOnlyTo(c, tid, Endpoint(c.Ip(Other(tid.from)), c.Port(Other(tid.from))))
  {
    forall env, acts, t | M.Legal(c, env, acts) && t in M.Run(c, env, acts).sent[tid]
      ensures GoesTo(t, Endpoint(c.Ip(Other(tid.from)), c.Port(Other(tid.from))))
    {
      T.ProvenanceHolds(c, env, acts);
      SentGoesTo(c, M.Run(c, env, acts), tid, t);
    }
  }

  lemma SentGoesTo(c: Connection, s: M.State, tid: M.Tid, t: M.Transmission)
    requires M.Total(s) && T.Provenance(c, s) && t in s.sent[tid]
    ensures GoesTo(t, Endpoint(c.Ip(Other(tid.from)), c.Port(Other(tid.from))))
  {
    assert T.SentOk(c, s, tid, t);
  }

  lemma PeersAreLinked(es: seq<Entity>, conns: seq<Connection>, c: nat, s: Side, ip: string, port: int)
    requires Connects(Links(es), conns) && c < |conns| && Selects(conns[c], s, ip, port)
    ensures Peer(es, ip, port, Endpoint(conns[c].Ip(Other(s)), conns[c].Port(Other(s))))
  {
    OneConnectionPerPair(Links(es), conns);
    var l := LinkOf(conns[c]);
    assert conns[c] in conns && l in Links(es);
    match s { case A => case B => }
    assert PeerVia(l, s, ip, port, Endpoint(conns[c].Ip(Other(s)), conns[c].Port(Other(s))));
  }

  /** If one connection can carry the packet to `x`, the first match leads to a connection
      that does, though it may be another one. */
  lemma Route(es: seq<Entity>, conns: seq<Connection>, ip: string, port: int, fuzzerIp: string,
              x: Endpoint, dport: int, c0: nat, s0: Side) returns (c: nat, s: Side)
    requires Connects(Links(es), conns) && Unambiguous(es, ip, port, x.ip)
    requires x.port == DYNAMIC || dport == x.port
    requires c0 < |conns| && Selects(conns[c0], s0, ip, port)
    requires Endpoint(conns[c0].Ip(Other(s0)), conns[c0].Port(Other(s0))) == x
    ensures LeadsTo(Rules(ip, port, conns, fuzzerIp), x.ip, dport, fuzzerIp, conns, c, s)
    ensures ForwardsOnlyTo(conns[c], M.Tid(M.Receiver, s), x)
  {
    Redirected(ip, port, conns, fuzzerIp, x.ip, dport);
    FirstCarrierIs(conns, ip, port, x.ip, dport);
    assert Carries(conns[c0], s0, ip, port, x.ip, dport);
    var k := FirstCarrier(conns, ip, port, x.ip, dport).value;
    c, s := k.conn, k.side;
    PeersAreLinked(es, conns, c0, s0, ip, port);
    PeersAreLinked(es, conns, c, s, ip, port);
    ThreadForwards(conns[c], M.Tid(M.Receiver, s));
  }

  /** The receive thread of side `s` serves nothing but the fixed endpoint `x` exactly when
      that is the other end of its connection: a dynamic end can be given any port. */
  lemma ForwardsExactly(c: Connection, s: Side, x: Endpoint)
    requires 0 <= x.port < 0x1_0000 && (c.Dynamic(Other(s)) || 0 <= c.Port(Other(s)) < 0x1_0000)
    ensures ForwardsOnlyTo(c, M.Tid(M.Receiver, s), x)
       <==> c.Ip(Other(s)) == x.ip && c.Port(Other(s)) == x.port
  {
    var tid := M.Tid(M.Receiver, s);
    ThreadForwards(c, tid);
    if ForwardsOnlyTo(c, tid, x) {
      var acts := L.FirstPacket(c, tid, (x.port + 1) % 0x1_0000);
      OnlyTo(c, tid, x, M.Any, acts, M.Run(c, M.Any, acts).sent[tid][0]);
    }
  }

  lemma OnlyTo(c: Connection, tid: M.Tid, x: Endpoint, env: M.Environment, acts: seq<M.Action>, t: M.Transmission)
    requires ForwardsOnlyTo(c, tid, x)
    requires M.Legal(c, env, acts) && t in M.Run(c, env, acts).sent[tid]
    ensures GoesTo(t, x)
  {
  }

  /** Exactly when a packet to the fixed endpoint `x` is redirected to a thread that forwards
      to `x` alone: the first connection that can carry it has to end at x's port, not at a
      dynamic one. */
  lemma RoutedExactly(conns: seq<Connection>, ip: string, port: int, fuzzerIp: string, x: Endpoint)
    requires PortsDistinct(conns) && 0 <= x.port < 0x1_0000
    requires forall i, s: Side :: 0 <= i < |conns| ==> conns[i].Dynamic(s) || 0 <= conns[i].Port(s) < 0x1_0000
    ensures (exists c: nat, s :: LeadsTo(Rules(ip, port, conns, fuzzerIp), x.ip, x.port, fuzzerIp, conns, c, s)
                            && ForwardsOnlyTo(conns[c], M.Tid(M.Receiver, s), x))
       <==> var k := FirstCarrier(conns, ip, port, x.ip, x.port);
            k.Some? && k.value.conn < |conns| && conns[k.value.conn].Port(Other(k.value.side)) == x.port
  {
    var rules := Rules(ip, port, conns, fuzzerIp);
    Redirected(ip, port, conns, fuzzerIp, x.ip, x.port);
    FirstCarrierIs(conns, ip, port, x.ip, x.port);
    var k := FirstCarrier(conns, ip, port, x.ip, x.port);
    if k.Some? {
      ForwardsExactly(conns[k.value.conn], k.value.side, x);
      assert LeadsTo(rules, x.ip, x.port, fuzzerIp, conns, k.value.conn, k.value.side);
    }
    forall c: nat, s | LeadsTo(rules, x.ip, x.port, fuzzerIp, conns, c, s)
      ensures k == Some(Carrier(c, s))
    {
      SameReceivePort(conns, c, s, k.value.conn, k.value.side);
    }
  }

  lemma SameReceivePort(conns: seq<Connection>, c: nat, s: Side, d: nat, u: Side)
    requires PortsDistinct(conns) && c < |conns| && d < |conns|
    requires conns[c].RecvPort(s) == conns[d].RecvPort(u)
    ensures c == d && s == u
  {
    var mine, its := if s == A then 0 else 2, if u == A then 0 else 2;
    assert conns[c].ProxyPorts()[mine] == conns[d].ProxyPorts()[its];
  }

  /** Forward direction: the packet of an entity to one of its destinations. */
  lemma DestinationReached(es: seq<Entity>, conns: seq<Connection>, fuzzerIp: string, i: nat, j: nat, dport: int)
    returns (c: nat, s: Side)
    requires Connects(Links(es), conns) && PortsPresent(es)
    requires i < |es| && !es[i].Fuzzer() && j < |es[i].destinations|
    requires es[i].destinations[j].port.value in {DYNAMIC, dport}
    requires Unambiguous(es, es[i].ip, es[i].port.value, es[i].destinations[j].ip)
    ensures var e, d := es[i], es[i].destinations[j];
      && LeadsTo(Rules(e.ip, e.port.value, conns, fuzzerIp), d.ip, dport, fuzzerIp, conns, c, s)
      && ForwardsOnlyTo(conns[c], M.Tid(M.Receiver, s), Endpoint(d.ip, d.port.value))
  {
    var e, l := es[i], LinksOf(es[i])[j];
    LinksMember(es, i, j);
    var c0 := ServedOnce(Links(es), conns, l);
    var s0 := if LinkOf(conns[c0]) == l then A else B;
    c, s := Route(es, conns, e.ip, e.port.value, fuzzerIp, l.dst, dport, c0, s0);
  }

  /** The port under which a destination is listed and the destination's own port. */
  predicate Agree(listed: int, own: int) {
    listed == DYNAMIC || own == DYNAMIC || listed == own
  }

  /** With one entity per IP, the destination of link `l` gets rules for the connection that
      serves `l` exactly when the port it is listed under agrees with its own. */
  lemma DestinationSelected(es: seq<Entity>, conns: seq<Connection>, i: nat, j: nat, k: nat) returns (c: nat, s: Side)
    requires Connects(Links(es), conns) && PortsPresent(es) && UniqueIps(es)
    requires i < |es| && !es[i].Fuzzer() && j < |es[i].destinations|
    requires k < |es| && !es[k].Fuzzer() && es[k].ip == es[i].destinations[j].ip
    ensures c < |conns|
    ensures Endpoint(conns[c].Ip(Other(s)), conns[c].Port(Other(s))) == Endpoint(es[i].ip, es[i].port.value)
    ensures Endpoint(conns[c].Ip(s), conns[c].Port(s)) == Endpoint(es[k].ip, es[i].destinations[j].port.value)
    ensures Selects(conns[c], s, es[k].ip, es[k].port.value)
       <==> Agree(es[i].destinations[j].port.value, es[k].port.value)
  {
    var l := LinksOf(es[i])[j];
    LinksMember(es, i, j);
    c := ServedOnce(Links(es), conns, l);
    if LinkOf(conns[c]) == l {
      s := B;
    } else {
      s := A;
      OneConnectionPerPair(Links(es), conns);
      assert conns[c] in conns && LinkOf(conns[c]) in Links(es);
      LinksSource(es, LinkOf(conns[c]));
      var k' :| 0 <= k' < |es| && !es[k'].Fuzzer() && LinkOf(conns[c]) in LinksOf(es[k']);
      assert es[k'].ip == es[k].ip;
      assert k' == k;
    }
  }

  /** Reverse direction: the packets of a destination back to the entity that lists it. */
  lemma SourceReached(es: seq<Entity>, conns: seq<Connection>, fuzzerIp: string, i: nat, j: nat, k: nat, dport: int)
    returns (c: nat, s: Side)
    requires Connects(Links(es), conns) && PortsPresent(es) && UniqueIps(es)
    requires i < |es| && !es[i].Fuzzer() && j < |es[i].destinations|
    requires k < |es| && !es[k].Fuzzer() && es[k].ip == es[i].destinations[j].ip
    requires Agree(es[i].destinations[j].port.value, es[k].port.value)
    requires es[i].port.value in {DYNAMIC, dport}
    requires Unambiguous(es, es[k].ip, es[k].port.value, es[i].ip)
    ensures LeadsTo(Rules(es[k].ip, es[k].port.value, conns, fuzzerIp), es[i].ip, dport, fuzzerIp, conns, c, s)
    ensures ForwardsOnlyTo(conns[c], M.Tid(M.Receiver, s), Endpoint(es[i].ip, es[i].port.value))
  {
    var c0, s0 := DestinationSelected(es, conns, i, j, k);
    c, s := Route(es, conns, es[k].ip, es[k].port.value, fuzzerIp, Endpoint(es[i].ip, es[i].port.value), dport, c0, s0);
  }

  /** Normalisation makes a destination listed without a port agree with its entity. */
  lemma OmittedPortAgrees(es: seq<Entity>, i: nat, j: nat, k: nat)
    requires UniqueIps(es) && i < |es| && k < |es| && es[i].Udp() && es[k].Udp()
    requires j < |es[i].destinations| && es[i].destinations[j] == Destination(es[k].ip, None)
    ensures var ns := Normalized(es);
      ns[i].destinations[j].port.Some? && ns[k].port.Some?
      && Agree(ns[i].destinations[j].port.value, ns[k].port.value)
  {
    OmittedPortIsEntityPort(es, k);
  }

  /** A rule's target port names one socket of the proxy: the receive socket of that side of
      that connection, which is where its receive thread listens. */
  lemma SocketOfRule(h: U.UdpHandler, c: nat, s: Side)
    requires h.Valid() && PortsDistinct(h.Records()) && c < |h.connections|
    ensures var sock := if s == A then h.connections[c].recvSockFromEntityA else h.connections[c].recvSockFromEntityB;
      && sock == h.recvSockets[2 * c + (if s == A then 0 else 1)]
      && sock in h.os.bound && h.os.bound[sock] == h.connections[c].rec.RecvPort(s)
      && h.sockToConnection[sock] == h.connections[c]
    ensures forall k :: 0 <= k < 2 * |h.connections| && k != 2 * c + (if s == A then 0 else 1) ==>
      h.recvSockets[k] in h.os.bound && h.os.bound[h.recvSockets[k]] != h.connections[c].rec.RecvPort(s)
    ensures forall k :: 0 <= k < 2 * |h.connections| ==>
      h.sendSockets[k] in h.os.bound && h.os.bound[h.sendSockets[k]] != h.connections[c].rec.RecvPort(s)
  {
    assert h.Listed(c) && h.Wired(h.connections[c]);
    forall k | 0 <= k < 2 * |h.connections|
      ensures h.recvSockets[k] in h.os.bound && h.sendSockets[k] in h.os.bound
      ensures k != 2 * c + (if s == A then 0 else 1) ==>
        h.os.bound[h.recvSockets[k]] != h.connections[c].rec.RecvPort(s)
      ensures h.os.bound[h.sendSockets[k]] != h.connections[c].rec.RecvPort(s)
    {
      OtherSocket(h, c, s, k);
    }
  }

  lemma OtherSocket(h: U.UdpHandler, c: nat, s: Side, k: nat)
    requires h.Valid() && PortsDistinct(h.Records()) && c < |h.connections| && k < 2 * |h.connections|
    ensures h.recvSockets[k] in h.os.bound && h.sendSockets[k] in h.os.bound
    ensures k != 2 * c + (if s == A then 0 else 1) ==>
      h.os.bound[h.recvSockets[k]] != h.connections[c].rec.RecvPort(s)
    ensures h.os.bound[h.sendSockets[k]] != h.connections[c].rec.RecvPort(s)
  {
    var j, records := k / 2, h.Records();
    h.EntryOwned(k);
    assert h.Wired(h.connections[j]);
    var mine := if s == A then 0 else 2;
    assert records[c].ProxyPorts()[mine] == h.connections[c].rec.RecvPort(s);
    var recv, send := if k % 2 == 0 then 0 else 2, if k % 2 == 0 then 1 else 3;
    assert records[j].ProxyPorts()[recv] == h.os.bound[h.recvSockets[k]];
    assert records[j].ProxyPorts()[send] == h.os.bound[h.sendSockets[k]];
    if j == c && recv == mine {
      assert k == 2 * c + (if s == A then 0 else 1);
    }
  }

  // ---------------------------------------------------------------- from the commander's output to the sockets

  /** The listed sockets bound to `port`. */
  ghost function SocketsOn(h: U.UdpHandler, port: int): (r: set<int>)
    reads h, h.os`bound
  {
    set sock | sock in h.recvSockets + h.sendSockets && sock in h.os.bound && h.os.bound[sock] == port
  }

  /** The one socket on the receive port of side `s` of the proxy's m-th connection is that
      connection's receive socket. */
  ghost predicate ListensAt(h: U.UdpHandler, m: nat, s: Side)
    requires h.Valid() && m < |h.connections|
    reads h, h.os`bound, h.connections
  {
    var k := 2 * m + (if s == A then 0 else 1);
    && SocketsOn(h, h.Records()[m].RecvPort(s)) == {h.recvSockets[k]}
    && h.recvSockets[k] in h.sockToConnection && h.sockToConnection[h.recvSockets[k]] == h.connections[m]
  }

  /** A packet that meets these rules is sent to the receive port of side `s` of connection
      `c`. If the proxy could set that connection up, the packet arrives at its socket, at no
      other, and leaves for `x` only; if not, nobody listens there. */
  ghost predicate Delivered(rules: seq<Rule>, dst: string, dport: int, fuzzerIp: string, conns: seq<Connection>,
                            h: U.UdpHandler, c: nat, s: Side, x: Endpoint)
    requires h.Valid()
    reads h, h.os`bound, h.connections
  {
    && LeadsTo(rules, dst, dport, fuzzerIp, conns, c, s)
    && ForwardsOnlyTo(conns[c], M.Tid(M.Receiver, s), x)
    && (forall m :: 0 <= m < |h.connections| && h.Records()[m] == conns[c] ==> ListensAt(h, m, s))
    && (conns[c] !in h.Records() ==> SocketsOn(h, conns[c].RecvPort(s)) == {})
  }

  function FuzzerIp(es: seq<Entity>): string {
    if FuzzerIndex(es) < |es| then es[FuzzerIndex(es)].ip else ""
  }

  lemma OnlySocket(h: U.UdpHandler, m: nat, s: Side)
    requires h.Valid() && PortsDistinct(h.Records()) && m < |h.connections|
    ensures ListensAt(h, m, s)
  {
    SocketOfRule(h, m, s);
    var k := 2 * m + (if s == A then 0 else 1);
    h.EntryOwned(k);
    assert h.recvSockets[k] in h.recvSockets + h.sendSockets;
  }

  lemma NoSocket(h: U.UdpHandler, conns: seq<Connection>, c: nat, s: Side)
    requires h.Valid() && PortsDistinct(conns) && c < |conns| && conns[c] !in h.Records()
    requires forall r :: r in h.Records() ==> r in conns
    ensures SocketsOn(h, conns[c].RecvPort(s)) == {}
  {
    forall k | 0 <= k < 2 * |h.connections|
      ensures h.recvSockets[k] in h.os.bound && h.os.bound[h.recvSockets[k]] != conns[c].RecvPort(s)
      ensures h.sendSockets[k] in h.os.bound && h.os.bound[h.sendSockets[k]] != conns[c].RecvPort(s)
    {
      h.EntryOwned(k);
      assert h.Wired(h.connections[k / 2]) && h.Records()[k / 2] in h.Records();
      var d :| 0 <= d < |conns| && conns[d] == h.Records()[k / 2];
      OtherPorts(conns, c, d, s, if k % 2 == 0 then A else B);
    }
  }

  lemma OtherPorts(conns: seq<Connection>, c: nat, d: nat, s: Side, u: Side)
    requires PortsDistinct(conns) && c < |conns| && d < |conns| && c != d
    ensures conns[d].RecvPort(u) != conns[c].RecvPort(s) && conns[d].SendPort(u) != conns[c].RecvPort(s)
  {
    var mine, recv, send := if s == A then 0 else 2, if u == A then 0 else 2, if u == A then 1 else 3;
    assert conns[d].ProxyPorts()[recv] != conns[c].ProxyPorts()[mine];
    assert conns[d].ProxyPorts()[send] != conns[c].ProxyPorts()[mine];
  }

  lemma {:induction false} SelectedPorts(conns: seq<Connection>, ok: seq<bool>)
    requires |conns| == |ok| && PortsDistinct(conns)
    ensures PortsDistinct(U.Selected(conns, ok))
    ensures forall r :: r in U.Selected(conns, ok) ==> r in conns
  {
    if conns != [] {
      var n := |conns| - 1;
      var front, next := U.Selected(conns[..n], ok[..n]), U.Selected(conns, ok);
      SelectedPorts(conns[..n], ok[..n]);
      if ok[n] {
        forall i, k, l | 0 <= i < |front| && 0 <= k < 4 && 0 <= l < 4
          ensures front[i].ProxyPorts()[k] != conns[n].ProxyPorts()[l]
        {
          assert front[i] in front;
          var m :| 0 <= m < n && conns[..n][m] == front[i];
          assert conns[m].ProxyPorts()[k] != conns[n].ProxyPorts()[l];
        }
        assert forall i :: 0 <= i < |next| ==> next[i] == if i < |front| then front[i] else conns[n];
        assert forall k, l | 0 <= k < 4 && 0 <= l < 4 ::
          conns[n].ProxyPorts()[k] == conns[n].ProxyPorts()[l] ==> k == l;
      }
    }
  }

  lemma Sockets(conns: seq<Connection>, ok: seq<bool>, h: U.UdpHandler, c: nat, s: Side)
    requires PortsDistinct(conns) && |ok| == |conns| && c < |conns|
    requires h.Valid() && h.Records() == U.Selected(conns, ok)
    ensures forall m :: 0 <= m < |h.connections| && h.Records()[m] == conns[c] ==> ListensAt(h, m, s)
    ensures conns[c] !in h.Records() ==> SocketsOn(h, conns[c].RecvPort(s)) == {}
  {
    SelectedPorts(conns, ok);
    forall m | 0 <= m < |h.connections| && h.Records()[m] == conns[c]
      ensures ListensAt(h, m, s)
    {
      OnlySocket(h, m, s);
    }
    if conns[c] !in h.Records() {
      NoSocket(h, conns, c, s);
    }
  }

  /** The configuration the commander wrote makes the rules of a fuzzed entity send its packet
      to a listed destination through the proxy to that destination, whichever connections
      the proxy could set up. */
  lemma RequestPath(es: seq<Entity>, result: seq<Entity>, conns: seq<Connection>, rs: seq<TcpRedirection>,
                    ok: seq<bool>, h: U.UdpHandler, i: nat, j: nat, dport: int)
    returns (c: nat, s: Side)
    requires Prepared(es, result, conns, rs)
    requires |ok| == |conns| && h.Valid() && h.Records() == U.Selected(conns, ok)
    requires i < |result| && GetsRules(result[i]) && j < |result[i].destinations|
    requires PortOr(result[i].destinations[j].port) in {DYNAMIC, dport}
    requires Unambiguous(result, result[i].ip, PortOr(result[i].port), result[i].destinations[j].ip)
    ensures var d := result[i].destinations[j];
      Delivered(EntryRules(result[i], result), d.ip, dport, FuzzerIp(result), conns, h, c, s,
                Endpoint(d.ip, PortOr(d.port)))
  {
    PreparedLinks(es, result, conns, rs);
    c, s := DestinationReached(result, conns, FuzzerIp(result), i, j, dport);
    Sockets(conns, ok, h, c, s);
  }

  /** The same for the packets of a fuzzed entity back to one that lists it, if the port it is
      listed under agrees with its own. */
  lemma ReplyPath(es: seq<Entity>, result: seq<Entity>, conns: seq<Connection>, rs: seq<TcpRedirection>,
                  ok: seq<bool>, h: U.UdpHandler, i: nat, j: nat, k: nat, dport: int)
    returns (c: nat, s: Side)
    requires Prepared(es, result, conns, rs) && UniqueIps(result)
    requires |ok| == |conns| && h.Valid() && h.Records() == U.Selected(conns, ok)
    requires i < |result| && !result[i].Fuzzer() && j < |result[i].destinations|
    requires k < |result| && GetsRules(result[k]) && result[k].ip == result[i].destinations[j].ip
    requires Agree(PortOr(result[i].destinations[j].port), PortOr(result[k].port))
    requires PortOr(result[i].port) in {DYNAMIC, dport}
    requires Unambiguous(result, result[k].ip, PortOr(result[k].port), result[i].ip)
    ensures Delivered(EntryRules(result[k], result), result[i].ip, dport, FuzzerIp(result), conns, h, c, s,
                      Endpoint(result[i].ip, PortOr(result[i].port)))
  {
    PreparedLinks(es, result, conns, rs);
    c, s := SourceReached(result, conns, FuzzerIp(result), i, j, k, dport);
    Sockets(conns, ok, h, c, s);
  }

  /** The socket the receive thread of side `from` of connection `m` sends from. */
  function AnswerIndex(m: nat, from: Side): nat { 2 * m + (if from == A then 1 else 0) }

  lemma AnswersReturn(h: U.UdpHandler, m: nat, from: Side, launch: U.Launch)
    requires h.Valid() && m < |h.connections| && h.Launched(AnswerIndex(m, from), launch) && launch.Mishaps() == 0
    ensures var c := h.connections[m];
      && h.sendSockets[AnswerIndex(m, from)] == c.SendSock(Other(from))
      && (launch.thread.Some? <==> c.rec.Dynamic(A) || c.rec.Dynamic(B))
      && (launch.thread.Some? <==> M.Runs(c.rec, M.Tid(M.Sender, Other(from))))
      && (launch.thread.Some? ==> AnswersTo(c.rec, from, launch.thread.value.isFromA) && launch.thread.value.conn == c)
  {
    var c := h.connections[m];
    h.EntryOwned(AnswerIndex(m, from));
    assert h.Wired(c);
    ThreadForwards(c.rec, M.Tid(M.Sender, Other(from)));
  }

  /** A send thread so labelled forwards answers back to side `from`, and nowhere else. */
  ghost predicate AnswersTo(c: Connection, from: Side, isFromA: bool) {
    var t := M.Tid(M.Sender, if isFromA then A else B);
    t.from == Other(from) && M.Runs(c, t) && ForwardsOnlyTo(c, t, Endpoint(c.Ip(from), c.Port(from)))
  }

  /** Starting the send thread of that socket: if no system call fails, the socket is read by
      a thread that forwards answers back to `from` exactly if the connection has a dynamic
      side; with two fixed ports nobody reads it. */
  method AnswerPath(h: U.UdpHandler, m: nat, from: Side) returns (launch: U.Launch)
    requires h.Valid() && PortsDistinct(h.Records()) && m < |h.connections|
    modifies h.os`failures
    ensures h.Valid() && h.sendSockets[AnswerIndex(m, from)] == h.connections[m].SendSock(Other(from))
    ensures h.os.failures == old(h.os.failures) ==>
      var c := h.connections[m];
      && (launch.thread.Some? <==> c.rec.Dynamic(A) || c.rec.Dynamic(B))
      && (launch.thread.Some? ==> AnswersTo(c.rec, from, launch.thread.value.isFromA) && launch.thread.value.conn == c)
  {
    SendPortsDiffer(h.Records());
    assert h.Records()[m] == h.connections[m].rec;
    h.EntryOwned(AnswerIndex(m, from));
    launch := h.StartSendThread(AnswerIndex(m, from));
    if launch.Mishaps() == 0 {
      AnswersReturn(h, m, from, launch);
    }
  }

  lemma SendPortsDiffer(conns: seq<Connection>)
    requires PortsDistinct(conns)
    ensures forall i :: 0 <= i < |conns| ==> conns[i].aSend != conns[i].bSend
  {
    forall i | 0 <= i < |conns|
      ensures conns[i].aSend != conns[i].bSend
    {
      assert conns[i].ProxyPorts()[1] != conns[i].ProxyPorts()[3];
    }
  }

  /** The proxy's UDP part set up for connections as the commander makes them: the send ports
      tell the directions apart, and if no system call fails, every connection is there with
      every thread it needs. */
  method StartUdp(os: U.Os, conns: seq<Connection>)
    returns (h: U.UdpHandler, ok: seq<bool>, recvs: seq<Option<U.UdpConnection>>, sends: seq<U.Launch>)
    requires PortsDistinct(conns)
    modifies os
    ensures fresh(h) && h.os == os && h.Valid() && |ok| == |conns| && h.Records() == U.Selected(conns, ok)
    ensures |recvs| == |sends| == 2 * |h.connections|
    ensures forall k :: 0 <= k < |recvs| && recvs[k].Some? ==> h.Owns(k) && recvs[k].value == h.connections[k / 2]
    ensures forall k :: 0 <= k < |sends| ==> h.Launched(k, sends[k])
    ensures os.failures == old(os.failures) ==>
      && h.Records() == conns
      && (forall k :: 0 <= k < |recvs| ==> recvs[k].Some?)
      && (forall k :: 0 <= k < |sends| ==> sends[k].Mishaps() == 0)
  {
    h := new U.UdpHandler(os);
    assert h.Records() == [];
    ok := h.BuildFromConnections(conns);
    assert h.Records() == U.Selected(conns, ok);
    SelectedPorts(conns, ok);
    recvs, sends := StartThreads(h);
  }

  method StartThreads(h: U.UdpHandler) returns (recvs: seq<Option<U.UdpConnection>>, sends: seq<U.Launch>)
    requires h.Valid() && PortsDistinct(h.Records())
    modifies h.os`failures
    ensures h.os.failures >= old(h.os.failures) && |recvs| == |sends| == 2 * |h.connections|
    ensures forall k :: 0 <= k < |recvs| && recvs[k].Some? ==> h.Owns(k) && recvs[k].value == h.connections[k / 2]
    ensures forall k :: 0 <= k < |sends| ==> h.Launched(k, sends[k])
    ensures h.os.failures == old(h.os.failures) ==>
      && (forall k :: 0 <= k < |recvs| ==> recvs[k].Some?)
      && (forall k :: 0 <= k < |sends| ==> sends[k].Mishaps() == 0)
  {
    SendPortsDiffer(h.Records());
    assert forall i :: 0 <= i < |h.connections| ==> h.Records()[i] == h.connections[i].rec;
    recvs := h.StartRecvThreads();
    sends := h.StartSendThreads();
    NoneMissing(recvs);
    U.NoMishap(sends);
  }

  /** The addresses the proxy uses towards the entity on either side of its m-th connection: the
      entity's rules redirect its packets to the port of the socket the send thread answers
      from, and accept packets from the port of the socket the receive thread forwards from. */
  lemma AddressesAgree(h: U.UdpHandler, m: nat, conns: seq<Connection>, i: nat, ip: string, port: int, fuzzerIp: string)
    requires h.Valid() && m < |h.connections| && i < |conns| && conns[i] == h.connections[m].rec
    ensures var c, u, rules := conns[i], h.connections[m], Rules(ip, port, conns, fuzzerIp);
      && u.recvSockFromEntityA in h.os.bound && u.sendSockToEntityA in h.os.bound
      && (c.aIp == ip && (port == -1 || c.aPort == port) ==>
            && Accept(fuzzerIp, h.os.bound[u.sendSockToEntityA]) in rules
            && Dnat(c.bIp, if c.bPort == -1 then None else Some(c.bPort), fuzzerIp, h.os.bound[u.recvSockFromEntityA])
               in rules)
    ensures var c, u, rules := conns[i], h.connections[m], Rules(ip, port, conns, fuzzerIp);
      && u.recvSockFromEntityB in h.os.bound && u.sendSockToEntityB in h.os.bound
      && (c.bIp == ip && (port == -1 || c.bPort == port || c.bPort == -1) ==>
            && Accept(fuzzerIp, h.os.bound[u.sendSockToEntityB]) in rules
            && Dnat(c.aIp, if c.aPort == -1 then None else Some(c.aPort), fuzzerIp, h.os.bound[u.recvSockFromEntityB])
               in rules)
  {
    h.SocketsBound(m);
    BothRules(ip, port, conns, fuzzerIp, i);
  }

  /** The commander's last two steps change nothing that links or rules depend on. */
  lemma PreparedLinks(es: seq<Entity>, result: seq<Entity>, conns: seq<Connection>, rs: seq<TcpRedirection>)
    requires Prepared(es, result, conns, rs)
    ensures FuzzerIndex(result) == FuzzerIndex(Normalized(es)) < |result|
    ensures result[FuzzerIndex(result)].connections == Some(conns)
    ensures Links(result) == Links(Normalized(es)) && PortsPresent(result) && Connects(Links(result), conns)
  {
    SameFuzzer(Normalized(es), result, FuzzerIndex(Normalized(es)));
  }

  lemma SameFuzzer(ns: seq<Entity>, result: seq<Entity>, f: nat)
    requires |ns| == |result| && f == FuzzerIndex(ns) < |ns| && result[f].Fuzzer() && PortsPresent(ns)
    requires forall k :: 0 <= k < |ns| && k != f ==> result[k] == ns[k]
    ensures FuzzerIndex(result) == f && Links(result) == Links(ns) && PortsPresent(result)
  {
    forall k | 0 <= k < |ns|
      ensures HasPorts(result[k]) && result[k].Fuzzer() == ns[k].Fuzzer()
    {
      assert HasPorts(ns[k]);
    }
    SameIndex(ns, result);
    SameLinks(ns, result);
  }

  /** What ReplyPath asks of the configuration holds for a destination listed without a port. */
  lemma PreparedPair(es: seq<Entity>, result: seq<Entity>, conns: seq<Connection>, rs: seq<TcpRedirection>,
                     i: nat, j: nat, k: nat)
    requires Prepared(es, result, conns, rs) && UniqueIps(es)
    requires i < |es| && k < |es| && es[i].Udp() && es[k].Udp() && !es[i].Fuzzer() && !es[k].Fuzzer()
    requires j < |es[i].destinations| && es[i].destinations[j] == Destination(es[k].ip, None)
    ensures |result| == |es| && UniqueIps(result)
    ensures !result[i].Fuzzer() && j < |result[i].destinations| && result[k].ip == result[i].destinations[j].ip
    ensures Agree(PortOr(result[i].destinations[j].port), PortOr(result[k].port))
  {
    PreparedEntity(es, result, conns, rs, i);
    PreparedEntity(es, result, conns, rs, k);
    NormalizedDestination(es, i, j);
    OmittedPortAgrees(es, i, j, k);
    PreparedIps(es, result, conns, rs);
  }

  lemma PreparedIps(es: seq<Entity>, result: seq<Entity>, conns: seq<Connection>, rs: seq<TcpRedirection>)
    requires Prepared(es, result, conns, rs)
    ensures UniqueIps(result) <==> UniqueIps(es)
  {
    assert |result| == |es|;
    forall a | 0 <= a < |result| ensures result[a].ip == es[a].ip {
      PreparedEntity(es, result, conns, rs, a);
    }
  }

  lemma PreparedEntity(es: seq<Entity>, result: seq<Entity>, conns: seq<Connection>, rs: seq<TcpRedirection>, k: nat)
    requires Prepared(es, result, conns, rs) && k < |es|
    ensures |result| == |es| && result[k].ip == es[k].ip && result[k].role == es[k].role
    ensures !es[k].Fuzzer() ==> result[k] == Normalized(es)[k]
  {
  }

  lemma NormalizedDestination(es: seq<Entity>, i: nat, j: nat)
    requires i < |es| && j < |es[i].destinations|
    ensures |Normalized(es)[i].destinations| == |es[i].destinations|
    ensures Normalized(es)[i].destinations[j].ip == es[i].destinations[j].ip
  {
  }

  lemma {:induction false} SameLinks(es: seq<Entity>, fs: seq<Entity>)
    requires |es| == |fs|
    requires forall k :: 0 <= k < |es| ==> es[k].Fuzzer() == fs[k].Fuzzer() && (!es[k].Fuzzer() ==> es[k] == fs[k])
    ensures Links(es) == Links(fs)
  {
    if es != [] {
      SameLinks(es[..|es| - 1], fs[..|fs| - 1]);
    }
  }
}
