/** The iptables rules of commander/docker_build.py, and which packets they redirect. */
module DnatRules {
  import opened Base
  import opened Topology
  import opened Redirections

  /** A line of the generated script; comments are left out. */
  datatype Rule =
    | Dnat(dst: string, dport: Option<int>, toIp: string, toPort: int)
    | Accept(src: string, sport: int)

  /** Whether the entity at (ip, port) gets rules as side `s` of `c`. The two sides are not
      treated alike: a dynamic B end matches every port. */
  predicate Selects(c: Connection, s: Side, ip: string, port: int) {
    && c.Ip(s) == ip
    && (port == DYNAMIC || c.Port(s) == port || (s == B && c.bPort == DYNAMIC))
  }

  function RulesAs(c: Connection, s: Side, ip: string, port: int, fuzzerIp: string): (r: seq<Rule>) {
    if !Selects(c, s, ip, port) then []
    else
      var peer := c.Port(Other(s));
      [Dnat(c.Ip(Other(s)), if peer == DYNAMIC then None else Some(peer), fuzzerIp, c.RecvPort(s)),
       Accept(fuzzerIp, c.SendPort(s))]
  }

  function Rules(ip: string, port: int, conns: seq<Connection>, fuzzerIp: string): (r: seq<Rule>) {
    if conns == [] then []
    else
      var c := conns[|conns| - 1];
      Rules(ip, port, conns[..|conns| - 1], fuzzerIp)
      + RulesAs(c, A, ip, port, fuzzerIp) + RulesAs(c, B, ip, port, fuzzerIp)
  }

  method GenerateUdpDnatRules(ip: string, port: int, conns: seq<Connection>, fuzzerIp: string)
    returns (lines: seq<Rule>)
    ensures lines == Rules(ip, port, conns, fuzzerIp)
  {
    lines := [];
    for i := 0 to |conns|
      invariant lines == Rules(ip, port, conns[..i], fuzzerIp)
    {
      RulesNext(ip, port, conns, fuzzerIp, i);
      var conn := conns[i];
      ghost var before := lines;
      if conn.aIp == ip && (port == -1 || conn.aPort == port) {
        var dport := if conn.bPort != -1 then Some(conn.bPort) else None;
        lines := lines + [Dnat(conn.bIp, dport, fuzzerIp, conn.aRecv)];
        lines := lines + [Accept(fuzzerIp, conn.aSend)];
      }
      assert lines == before + RulesAs(conn, A, ip, port, fuzzerIp);
      before := lines;
      if conn.bIp == ip && (port == -1 || conn.bPort == port || conn.bPort == -1) {
        var dport := if conn.aPort != -1 then Some(conn.aPort) else None;
        lines := lines + [Dnat(conn.aIp, dport, fuzzerIp, conn.bRecv)];
        lines := lines + [Accept(fuzzerIp, conn.bSend)];
      }
      assert lines == before + RulesAs(conn, B, ip, port, fuzzerIp);
    }
    assert conns[..|conns|] == conns;
  }

  lemma RulesNext(ip: string, port: int, conns: seq<Connection>, fuzzerIp: string, i: nat)
    requires i < |conns|
    ensures Rules(ip, port, conns[..i + 1], fuzzerIp)
         == Rules(ip, port, conns[..i], fuzzerIp)
            + RulesAs(conns[i], A, ip, port, fuzzerIp) + RulesAs(conns[i], B, ip, port, fuzzerIp)
  {
    assert conns[..i + 1][..i] == conns[..i];
  }

  /** The rules connection by connection: a redirection to the receive port of the entity's side
      and an acceptance of the send port of that side. A side's own port matches if the entity
      has no port or the same; a dynamic B side matches always. */
  lemma RulesExactly(ip: string, port: int, conns: seq<Connection>, fuzzerIp: string)
    ensures conns == [] ==> Rules(ip, port, conns, fuzzerIp) == []
    ensures conns != [] ==>
      var c := conns[|conns| - 1];
      var toB := Dnat(c.bIp, if c.bPort == -1 then None else Some(c.bPort), fuzzerIp, c.aRecv);
      var toA := Dnat(c.aIp, if c.aPort == -1 then None else Some(c.aPort), fuzzerIp, c.bRecv);
      Rules(ip, port, conns, fuzzerIp)
      == Rules(ip, port, conns[..|conns| - 1], fuzzerIp)
         + (if c.aIp == ip && (port == -1 || c.aPort == port) then [toB, Accept(fuzzerIp, c.aSend)] else [])
         + (if c.bIp == ip && (port == -1 || c.bPort == port || c.bPort == -1)
            then [toA, Accept(fuzzerIp, c.bSend)] else [])
  {
  }

  /** So an entity that is side A or B of a listed connection has both rules for it. */
  lemma {:induction false} BothRules(ip: string, port: int, conns: seq<Connection>, fuzzerIp: string, i: nat)
    requires i < |conns|
    ensures conns[i].aIp == ip && (port == -1 || conns[i].aPort == port) ==>
      && Accept(fuzzerIp, conns[i].aSend) in Rules(ip, port, conns, fuzzerIp)
      && Dnat(conns[i].bIp, if conns[i].bPort == -1 then None else Some(conns[i].bPort), fuzzerIp, conns[i].aRecv)
         in Rules(ip, port, conns, fuzzerIp)
    ensures conns[i].bIp == ip && (port == -1 || conns[i].bPort == port || conns[i].bPort == -1) ==>
      && Accept(fuzzerIp, conns[i].bSend) in Rules(ip, port, conns, fuzzerIp)
      && Dnat(conns[i].aIp, if conns[i].aPort == -1 then None else Some(conns[i].aPort), fuzzerIp, conns[i].bRecv)
         in Rules(ip, port, conns, fuzzerIp)
  {
    RulesExactly(ip, port, conns, fuzzerIp);
    if i < |conns| - 1 {
      BothRules(ip, port, conns[..|conns| - 1], fuzzerIp, i);
    }
  }

  /** The entry point of a fuzzed entity. A missing protocol means UDP here, though not to
      the port normaliser. */
  predicate GetsRules(e: Entity) {
    !e.Fuzzer() && e.fuzzed && (e.protocol.None? || e.Udp())
  }

  function EntryRules(e: Entity, es: seq<Entity>): (r: seq<Rule>) {
    var f := FuzzerIndex(es);
    if GetsRules(e) && f < |es| && es[f].connections.Some?
      then Rules(e.ip, PortOr(e.port), es[f].connections.value, es[f].ip)
      else []
  }

  /** The UDP part of generate_dockerfile. */
  method GenerateEntryPoint(entity: Entity, all: seq<Entity>) returns (lines: seq<Rule>)
    ensures lines == EntryRules(entity, all)
  {
    lines := [];
    var proto := if entity.protocol.Some? then entity.protocol.value else "udp";
    if entity.role != "fuzzer" && entity.fuzzed && proto == "udp" {
      var f := FuzzerIndex(all);
      if f < |all| && all[f].connections.Some? {
        lines := GenerateUdpDnatRules(entity.ip, PortOr(entity.port), all[f].connections.value, all[f].ip);
      }
    }
  }

  /** Who gets rules, in the words of the configuration file; `f` is the first fuzzer, or the
      number of entities if there is none. */
  lemma EntryRulesExactly(e: Entity, es: seq<Entity>, f: nat)
    requires f <= |es| && (forall i :: 0 <= i < f ==> es[i].role != "fuzzer") && (f < |es| ==> es[f].role == "fuzzer")
    ensures e.role == "fuzzer" || !e.fuzzed ==> EntryRules(e, es) == []
    ensures e.protocol.Some? && e.protocol.value != "udp" ==> EntryRules(e, es) == []
    ensures f == |es| || es[f].connections.None? ==> EntryRules(e, es) == []
    ensures (f < |es| && es[f].connections.Some? && e.role != "fuzzer" && e.fuzzed
             && e.protocol in {None, Some("udp")}) ==>
      EntryRules(e, es) == Rules(e.ip, if e.port.Some? then e.port.value else -1, es[f].connections.value, es[f].ip)
  {
    assert FuzzerIndex(es) == f;
  }

  // ---------------------------------------------------------------- what a packet meets

  predicate Matches(r: Rule, dst: string, dport: int) {
    r.Dnat? && r.dst == dst && (r.dport.None? || r.dport.value == dport)
  }

  /** The nat table: the first matching rule decides. */
  function FirstMatch(rules: seq<Rule>, dst: string, dport: int): (r: Option<Rule>) {
    if rules == [] then None
    else if Matches(rules[0], dst, dport) then Some(rules[0])
    else FirstMatch(rules[1..], dst, dport)
  }

  lemma {:induction false} FirstMatchAppend(a: seq<Rule>, b: seq<Rule>, dst: string, dport: int)
    ensures FirstMatch(a + b, dst, dport)
         == if FirstMatch(a, dst, dport).Some? then FirstMatch(a, dst, dport) else FirstMatch(b, dst, dport)
  {
    if a == [] {
      assert a + b == b;
    } else {
      FirstMatchAppend(a[1..], b, dst, dport);
      assert (a + b)[1..] == a[1..] + b;
    }
  }

  /** Connection `c` has (ip, port) as side `s` and can carry a packet to (dst, dport). */
  predicate Carries(c: Connection, s: Side, ip: string, port: int, dst: string, dport: int) {
    && Selects(c, s, ip, port)
    && c.Ip(Other(s)) == dst
    && (c.Port(Other(s)) == DYNAMIC || c.Port(Other(s)) == dport)
  }

  datatype Carrier = Carrier(conn: nat, side: Side)

  /** The first connection, in list order and side A before side B, that can carry the packet. */
  function FirstCarrier(conns: seq<Connection>, ip: string, port: int, dst: string, dport: int): (r: Option<Carrier>) {
    if conns == [] then None
    else
      var n := |conns| - 1;
      var front := FirstCarrier(conns[..n], ip, port, dst, dport);
      if front.Some? then front
      else if Carries(conns[n], A, ip, port, dst, dport) then Some(Carrier(n, A))
      else if Carries(conns[n], B, ip, port, dst, dport) then Some(Carrier(n, B))
      else None
  }

  predicate Before(c: Carrier, d: Carrier) {
    c.conn < d.conn || (c.conn == d.conn && c.side == A && d.side == B)
  }

  lemma {:induction false} FirstCarrierIs(conns: seq<Connection>, ip: string, port: int, dst: string, dport: int)
    ensures var k := FirstCarrier(conns, ip, port, dst, dport);
      && (k.Some? ==> k.value.conn < |conns| && Carries(conns[k.value.conn], k.value.side, ip, port, dst, dport))
      && forall i, s: Side :: 0 <= i < |conns| && Carries(conns[i], s, ip, port, dst, dport) ==>
           k.Some? && !Before(Carrier(i, s), k.value)
  {
    if conns != [] {
      var n := |conns| - 1;
      FirstCarrierIs(conns[..n], ip, port, dst, dport);
      assert forall i :: 0 <= i < n ==> conns[..n][i] == conns[i];
    }
  }

  lemma RuleMatches(c: Connection, s: Side, ip: string, port: int, fuzzerIp: string, dst: string, dport: int)
    ensures var m := FirstMatch(RulesAs(c, s, ip, port, fuzzerIp), dst, dport);
      && (m.Some? <==> Carries(c, s, ip, port, dst, dport))
      && (m.Some? ==> m == Some(RulesAs(c, s, ip, port, fuzzerIp)[0]))
  {
    var rules := RulesAs(c, s, ip, port, fuzzerIp);
    if rules != [] {
      assert rules[1..] == [rules[1]] && rules[1].Accept?;
      assert FirstMatch(rules[1..], dst, dport) == FirstMatch([], dst, dport);
    }
  }

  /** A packet is redirected iff some connection can carry it, and then it goes to the
      fuzzer, to the receive port of the sender's side of the first such connection. */
  lemma {:induction false} Redirected(ip: string, port: int, conns: seq<Connection>, fuzzerIp: string,
                                      dst: string, dport: int)
    ensures var m := FirstMatch(Rules(ip, port, conns, fuzzerIp), dst, dport);
      var k := FirstCarrier(conns, ip, port, dst, dport);
      && (m.Some? <==> k.Some?)
      && (m.Some? ==>
            && k.value.conn < |conns|
            && m.value.Dnat? && m.value.toIp == fuzzerIp
            && m.value.toPort == conns[k.value.conn].RecvPort(k.value.side))
  {
    if conns != [] {
      var n := |conns| - 1;
      var c := conns[n];
      var front := Rules(ip, port, conns[..n], fuzzerIp);
      var asA, asB := RulesAs(c, A, ip, port, fuzzerIp), RulesAs(c, B, ip, port, fuzzerIp);
      Redirected(ip, port, conns[..n], fuzzerIp, dst, dport);
      FirstMatchAppend(front, asA, dst, dport);
      FirstMatchAppend(front + asA, asB, dst, dport);
      RuleMatches(c, A, ip, port, fuzzerIp, dst, dport);
      RuleMatches(c, B, ip, port, fuzzerIp, dst, dport);
    }
  }

  /** A dynamic peer's rule has no port condition: if its connection comes first, it takes
      every packet to that IP, also those meant for another peer there. */
  lemma DynamicPeerShadows(ip: string, port: int, conns: seq<Connection>, fuzzerIp: string, dport: int)
    requires conns != [] && Selects(conns[0], A, ip, port) && conns[0].bPort == DYNAMIC
    ensures var m := FirstMatch(Rules(ip, port, conns, fuzzerIp), conns[0].bIp, dport);
      m.Some? && m.value.Dnat? && m.value.toIp == fuzzerIp && m.value.toPort == conns[0].aRecv
  {
    Redirected(ip, port, conns, fuzzerIp, conns[0].bIp, dport);
    FirstCarrierIs(conns, ip, port, conns[0].bIp, dport);
    assert Carries(conns[0], A, ip, port, conns[0].bIp, dport);
  }
}
