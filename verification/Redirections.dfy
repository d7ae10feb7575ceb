/** commander/redirection_injector.py: one proxy connection per undirected pair of
    endpoints, one TCP redirection per TCP server, all on distinct random ports. */
module Redirections {
  import opened Base
  import opened Topology
  import opened PortNormalizer

  const FIRST_PORT: int := 20000
  const LAST_PORT: int := 60000
  const PORT_COUNT: nat := 40001

  predicate InRange(p: int) { FIRST_PORT <= p <= LAST_PORT }

  datatype Endpoint = Endpoint(ip: string, port: int)
  datatype Link = Link(src: Endpoint, dst: Endpoint)

  // ---------------------------------------------------------------- undirected pairs

  predicate StringLess(a: string, b: string) {
    if b == [] then false
    else if a == [] then true
    else a[0] < b[0] || (a[0] == b[0] && StringLess(a[1..], b[1..]))
  }

  /** The order of Python tuples of a string and an int. */
  predicate EndpointLess(x: Endpoint, y: Endpoint) {
    StringLess(x.ip, y.ip) || (x.ip == y.ip && x.port < y.port)
  }

  /** tuple(sorted([src, dst])) */
  function Key(l: Link): (r: Link) {
    if EndpointLess(l.dst, l.src) then Link(l.dst, l.src) else l
  }

  lemma {:induction false} StringTrichotomy(a: string, b: string)
    ensures !(StringLess(a, b) && StringLess(b, a))
    ensures a == b <==> !StringLess(a, b) && !StringLess(b, a)
  {
    if a != [] && b != [] {
      StringTrichotomy(a[1..], b[1..]);
      assert a == [a[0]] + a[1..] && b == [b[0]] + b[1..];
    }
  }

  /** Sorting makes exactly the two directions of a pair equal. */
  lemma KeyIsUndirected(l: Link, m: Link)
    ensures Key(l) == Key(m) <==> l == m || l == Link(m.dst, m.src)
  {
    StringTrichotomy(l.src.ip, l.dst.ip);
    StringTrichotomy(m.src.ip, m.dst.ip);
  }

  // ---------------------------------------------------------------- the links of a configuration

  function LinksOf(e: Entity): (r: seq<Link>) {
    seq(|e.destinations|, j requires 0 <= j < |e.destinations| =>
      Link(Endpoint(e.ip, PortOr(e.port)), Endpoint(e.destinations[j].ip, PortOr(e.destinations[j].port))))
  }

  function PortOr(p: Option<int>): int {
    if p.Some? then p.value else DYNAMIC
  }

  function Links(es: seq<Entity>): (r: seq<Link>) {
    if es == [] then []
    else Links(es[..|es| - 1]) + (if es[|es| - 1].Fuzzer() then [] else LinksOf(es[|es| - 1]))
  }

  function Keys(ls: seq<Link>): (r: set<Link>) {
    set l | l in ls :: Key(l)
  }

  /** The links that open a connection: the first of each undirected pair. */
  function Opening(ls: seq<Link>): (r: seq<Link>) {
    if ls == [] then []
    else
      var n := |ls| - 1;
      if Key(ls[n]) in Keys(ls[..n]) then Opening(ls[..n]) else Opening(ls[..n]) + [ls[n]]
  }

  /** Every port the code reads without a default is there; otherwise it raises KeyError. */
  predicate PortsPresent(es: seq<Entity>) {
    forall i :: 0 <= i < |es| ==> HasPorts(es[i])
  }

  predicate PresentUpTo(es: seq<Entity>, i: nat)
    requires i <= |es|
  {
    forall k :: 0 <= k < i ==> HasPorts(es[k])
  }

  predicate HasPorts(e: Entity) {
    e.Fuzzer() || (e.port.Some? && forall j :: 0 <= j < |e.destinations| ==> e.destinations[j].port.Some?)
  }

  lemma LinksNext(es: seq<Entity>, i: nat)
    requires i < |es|
    ensures Links(es[..i + 1]) == if es[i].Fuzzer() then Links(es[..i]) else Links(es[..i]) + LinksOf(es[i])
  {
    assert es[..i + 1][..i] == es[..i];
  }

  lemma KeysSnoc(ls: seq<Link>, l: Link)
    ensures Keys(ls + [l]) == Keys(ls) + {Key(l)}
    ensures Opening(ls + [l]) == if Key(l) in Keys(ls) then Opening(ls) else Opening(ls) + [l]
  {
  }

  lemma {:induction false} LinksMember(es: seq<Entity>, i: nat, j: nat)
    requires i < |es| && !es[i].Fuzzer() && j < |es[i].destinations|
    ensures LinksOf(es[i])[j] in Links(es)
  {
    var n := |es| - 1;
    if i < n {
      LinksMember(es[..n], i, j);
    } else {
      assert LinksOf(es[i])[j] in LinksOf(es[i]);
    }
  }

  lemma {:induction false} LinksSource(es: seq<Entity>, l: Link)
    requires l in Links(es)
    ensures exists i :: 0 <= i < |es| && !es[i].Fuzzer() && l in LinksOf(es[i])
  {
    var n := |es| - 1;
    if l in Links(es[..n]) {
      LinksSource(es[..n], l);
      var i :| 0 <= i < n && !es[..n][i].Fuzzer() && l in LinksOf(es[..n][i]);
      assert es[i] == es[..n][i];
    } else {
      assert l in LinksOf(es[n]);
    }
  }

  // ---------------------------------------------------------------- what a run produces

  function LinkOf(c: Connection): (r: Link) {
    Link(Endpoint(c.aIp, c.aPort), Endpoint(c.bIp, c.bPort))
  }

  /** All proxy ports of all connections differ and lie in the range. */
  ghost predicate PortsDistinct(conns: seq<Connection>) {
    && (forall i, k :: 0 <= i < |conns| && 0 <= k < 4 ==> InRange(conns[i].ProxyPorts()[k]))
    && (forall i, k, j, l | 0 <= i < |conns| && 0 <= j < |conns| && 0 <= k < 4 && 0 <= l < 4 ::
          conns[i].ProxyPorts()[k] == conns[j].ProxyPorts()[l] ==> i == j && k == l)
  }

  function PortSet(conns: seq<Connection>): (r: set<int>) {
    set i, k | 0 <= i < |conns| && 0 <= k < 4 :: conns[i].ProxyPorts()[k]
  }

  /** `conns` is a possible outcome for the links `ls`. */
  ghost predicate Connects(ls: seq<Link>, conns: seq<Connection>) {
    && |conns| == |Opening(ls)|
    && (forall i :: 0 <= i < |conns| ==> LinkOf(conns[i]) == Opening(ls)[i])
    && PortsDistinct(conns)
  }

  ghost predicate Redirects(es: seq<Entity>, used: set<int>, rs: seq<TcpRedirection>) {
    && |rs| == |Servers(es)|
    && (forall i :: 0 <= i < |rs| ==> Endpoint(rs[i].serverIp, rs[i].serverPort) == Servers(es)[i])
    && (forall i :: 0 <= i < |rs| ==> InRange(rs[i].proxyPort) && rs[i].proxyPort !in used)
    && (forall i, j :: 0 <= i < j < |rs| ==> rs[i].proxyPort != rs[j].proxyPort)
  }

  predicate TcpServer(e: Entity) {
    e.role == "server" && e.protocol == Some("tcp") && e.ip != "" && PortOr(e.port) != -1
  }

  /** Endpoints of the TCP servers, each once, in order of first appearance. */
  function Servers(es: seq<Entity>): (r: seq<Endpoint>) {
    if es == [] then []
    else
      var e := es[|es| - 1];
      var rest := Servers(es[..|es| - 1]);
      var s := Endpoint(e.ip, PortOr(e.port));
      if TcpServer(e) && s !in rest then rest + [s] else rest
  }

  datatype Outcome = Injected | NoFuzzer | KeyError

  ghost predicate HasFuzzer(es: seq<Entity>) {
    exists i :: 0 <= i < |es| && es[i].Fuzzer()
  }

  function FuzzerIndex(es: seq<Entity>): (f: nat)
    ensures f <= |es|
    ensures f < |es| ==> es[f].Fuzzer()
    ensures forall i :: 0 <= i < f ==> !es[i].Fuzzer()
  {
    if es == [] || es[0].Fuzzer() then 0 else 1 + FuzzerIndex(es[1..])
  }

  /** random.randint until the number is new; the loop ends only if one is left. */
  method RandomPort(used: set<int>) returns (p: int)
    requires |used| < PORT_COUNT
    ensures InRange(p) && p !in used && 20000 <= p <= 60000
  {
    Pigeonhole(FIRST_PORT, PORT_COUNT, used);
    p :| FIRST_PORT <= p < FIRST_PORT + PORT_COUNT && p !in used;
  }

  method FourPorts(used: set<int>) returns (ports: seq<int>, used': set<int>)
    requires |used| + 4 <= PORT_COUNT
    ensures |ports| == 4 && used' == used + {ports[0], ports[1], ports[2], ports[3]}
    ensures forall k :: 0 <= k < 4 ==> InRange(ports[k]) && ports[k] !in used
    ensures forall k, l :: 0 <= k < l < 4 ==> ports[k] != ports[l]
    ensures |used'| == |used| + 4
  {
    var p0 := RandomPort(used);
    var p1 := RandomPort(used + {p0});
    var p2 := RandomPort(used + {p0} + {p1});
    var p3 := RandomPort(used + {p0} + {p1} + {p2});
    ports := [p0, p1, p2, p3];
    used' := used + {p0} + {p1} + {p2} + {p3};
  }

  method InjectFuzzerRedirections(config: ConfigFile) returns (outcome: Outcome)
    requires 4 * |Keys(Links(config.entities))| <= PORT_COUNT
    modifies config
    ensures outcome == NoFuzzer <==> !HasFuzzer(old(config.entities))
    ensures outcome == KeyError <==> HasFuzzer(old(config.entities)) && !PortsPresent(old(config.entities))
    ensures outcome != Injected ==> config.entities == old(config.entities)
    ensures outcome == Injected ==>
      var es, f := old(config.entities), FuzzerIndex(old(config.entities));
      exists conns ::
        Connects(Links(es), conns) && config.entities == es[f := es[f].(connections := Some(conns))]
  {
    var es := config.entities;
    var f := FuzzerIndex(es);
    if f == |es| {
      return NoFuzzer;
    }
    var missing, connections := CollectConnections(es);
    if missing {
      return KeyError;
    }
    config.entities := es[f := es[f].(connections := Some(connections))];
    outcome := Injected;
  }

  /** The outer loop, over the entities. */
  method CollectConnections(es: seq<Entity>) returns (missing: bool, connections: seq<Connection>)
    requires 4 * |Keys(Links(es))| <= PORT_COUNT
    ensures missing <==> !PortsPresent(es)
    ensures !missing ==> Connects(Links(es), connections)
  {
    connections, missing := [], false;
    var usedPorts: set<int> := {};
    var seenPairs: set<Link> := {};
    for i := 0 to |es|
      invariant !missing && PresentUpTo(es, i)
      invariant Progress(Links(es[..i]), connections, usedPorts, seenPairs)
    {
      missing, connections, usedPorts, seenPairs := InjectAt(es, i, connections, usedPorts, seenPairs);
      if missing {
        return;
      }
    }
    assert es[..|es|] == es;
  }

  method InjectAt(es: seq<Entity>, i: nat, connections0: seq<Connection>, usedPorts0: set<int>, seenPairs0: set<Link>)
    returns (missing: bool, connections: seq<Connection>, usedPorts: set<int>, seenPairs: set<Link>)
    requires i < |es| && 4 * |Keys(Links(es))| <= PORT_COUNT
    requires Progress(Links(es[..i]), connections0, usedPorts0, seenPairs0)
    ensures missing <==> !HasPorts(es[i])
    ensures !missing ==> Progress(Links(es[..i + 1]), connections, usedPorts, seenPairs)
  {
    missing, connections, usedPorts, seenPairs := false, connections0, usedPorts0, seenPairs0;
    LinksNext(es, i);
    if !es[i].Fuzzer() {
      PrefixKeys(es, i);
      missing, connections, usedPorts, seenPairs :=
        InjectEntity(es[i], connections, usedPorts, seenPairs, Links(es[..i]), Keys(Links(es)));
    }
  }

  /** The inner loop, over the destinations of one entity; `prior` are the links already
      handled and `all` is enough to hold every key. */
  method InjectEntity(entity: Entity, connections0: seq<Connection>, usedPorts0: set<int>, seenPairs0: set<Link>,
                      ghost prior: seq<Link>, ghost all: set<Link>)
    returns (missing: bool, connections: seq<Connection>, usedPorts: set<int>, seenPairs: set<Link>)
    requires !entity.Fuzzer() && Keys(prior + LinksOf(entity)) <= all && 4 * |all| <= PORT_COUNT
    requires Progress(prior, connections0, usedPorts0, seenPairs0)
    ensures missing <==> !HasPorts(entity)
    ensures !missing ==> Progress(prior + LinksOf(entity), connections, usedPorts, seenPairs)
  {
    connections, usedPorts, seenPairs := connections0, usedPorts0, seenPairs0;
    if entity.port.None? {
      return true, connections, usedPorts, seenPairs;
    }
    ghost var ls := prior;
    for j := 0 to |entity.destinations|
      invariant forall k :: 0 <= k < j ==> entity.destinations[k].port.Some?
      invariant ls == prior + LinksOf(entity)[..j]
      invariant Progress(ls, connections, usedPorts, seenPairs)
    {
      var dest := entity.destinations[j];
      if dest.port.None? {
        return true, connections, usedPorts, seenPairs;
      }
      var link := Link(Endpoint(entity.ip, entity.port.value), Endpoint(dest.ip, dest.port.value));
      assert link == LinksOf(entity)[j];
      OneMoreLink(prior, LinksOf(entity), j);
      connections, usedPorts, seenPairs :=
        InjectLink(link, connections, usedPorts, seenPairs, ls, prior + LinksOf(entity), all);
      ls := ls + [link];
    }
    assert ls == prior + LinksOf(entity);
    missing := false;
  }

  lemma OneMoreLink(prior: seq<Link>, ls: seq<Link>, j: nat)
    requires j < |ls|
    ensures prior + ls[..j] + [ls[j]] == prior + ls[..j + 1] <= prior + ls
  {
    assert prior + ls[..j + 1] == (prior + ls)[..|prior| + j + 1];
  }

  method InjectLink(link: Link, connections0: seq<Connection>, usedPorts0: set<int>, seenPairs0: set<Link>,
                    ghost ls: seq<Link>, ghost whole: seq<Link>, ghost all: set<Link>)
    returns (connections: seq<Connection>, usedPorts: set<int>, seenPairs: set<Link>)
    requires ls + [link] <= whole && Keys(whole) <= all && 4 * |all| <= PORT_COUNT
    requires Progress(ls, connections0, usedPorts0, seenPairs0)
    ensures Progress(ls + [link], connections, usedPorts, seenPairs)
  {
    connections, usedPorts, seenPairs := connections0, usedPorts0, seenPairs0;
    if Key(link) !in seenPairs {
      KeysWithin(ls, link, whole, all);
      connections, usedPorts, seenPairs := AddConnection(link, connections, usedPorts, seenPairs, ls);
    } else {
      KeysSnoc(ls, link);
    }
  }

  method AddConnection(link: Link, connections0: seq<Connection>, usedPorts0: set<int>, seenPairs0: set<Link>,
                       ghost ls: seq<Link>)
    returns (connections: seq<Connection>, usedPorts: set<int>, seenPairs: set<Link>)
    requires Progress(ls, connections0, usedPorts0, seenPairs0)
    requires Key(link) !in seenPairs0 && 4 * (|Keys(ls)| + 1) <= PORT_COUNT
    ensures Progress(ls + [link], connections, usedPorts, seenPairs)
  {
    seenPairs := seenPairs0 + {Key(link)};
    Room(ls, connections0, usedPorts0, seenPairs0);
    var ports;
    ports, usedPorts := FourPorts(usedPorts0);
    var connection := Connection(
      link.src.ip, link.src.port, ports[0], ports[1], link.dst.ip, link.dst.port, ports[2], ports[3]);
    assert connection.ProxyPorts() == ports;
    assert FreshPorts(connection, usedPorts0, usedPorts);
    ProgressStep(ls, link, connections0, usedPorts0, seenPairs0, connection, usedPorts);
    connections := connections0 + [connection];
  }

  lemma Room(ls: seq<Link>, conns: seq<Connection>, used: set<int>, seen: set<Link>)
    requires Progress(ls, conns, used, seen)
    ensures |used| == 4 * |Keys(ls)|
  {
    OpeningCount(ls);
  }

  ghost predicate FreshPorts(c: Connection, used: set<int>, used': set<int>) {
    var ps := c.ProxyPorts();
    && used' == used + {ps[0], ps[1], ps[2], ps[3]}
    && (forall k :: 0 <= k < 4 ==> InRange(ps[k]) && ps[k] !in used)
    && (forall k, l :: 0 <= k < l < 4 ==> ps[k] != ps[l])
  }

  lemma ProgressStep(ls: seq<Link>, link: Link, conns: seq<Connection>, used: set<int>, seen: set<Link>,
                     c: Connection, used': set<int>)
    requires Progress(ls, conns, used, seen) && Key(link) !in seen
    requires LinkOf(c) == link && FreshPorts(c, used, used') && |used'| == |used| + 4
    ensures Progress(ls + [link], conns + [c], used', seen + {Key(link)})
  {
    KeysSnoc(ls, link);
    PortsGrow(conns, used, c, used');
    ConnectsStep(ls, link, conns, c);
  }

  lemma ConnectsStep(ls: seq<Link>, link: Link, conns: seq<Connection>, c: Connection)
    requires Connects(ls, conns) && Key(link) !in Keys(ls) && LinkOf(c) == link && PortsDistinct(conns + [c])
    ensures Connects(ls + [link], conns + [c])
  {
  }

  ghost predicate Progress(ls: seq<Link>, conns: seq<Connection>, used: set<int>, seen: set<Link>) {
    Connects(ls, conns) && used == PortSet(conns) && |used| == 4 * |conns| && seen == Keys(ls)
  }

  lemma PortsGrow(conns: seq<Connection>, used: set<int>, c: Connection, used': set<int>)
    requires PortsDistinct(conns) && used == PortSet(conns)
    requires FreshPorts(c, used, used')
    ensures PortsDistinct(conns + [c]) && used' == PortSet(conns + [c])
  {
    var n, next := |conns|, conns + [c];
    forall i, k | 0 <= i <= n && 0 <= k < 4
      ensures next[i].ProxyPorts()[k] in used'
      ensures i < n ==> next[i].ProxyPorts()[k] in used
    {
      if i < n {
        assert conns[i].ProxyPorts()[k] in PortSet(conns);
      }
    }
    forall i, k, j, l | 0 <= i <= n && 0 <= j <= n && 0 <= k < 4 && 0 <= l < 4
      ensures next[i].ProxyPorts()[k] == next[j].ProxyPorts()[l] ==> i == j && k == l
    {
      if i < n && j < n {
        assert conns[i].ProxyPorts()[k] == conns[j].ProxyPorts()[l] ==> i == j && k == l;
      }
    }
    NewPortSet(conns, used, c, used');
  }

  lemma NewPortSet(conns: seq<Connection>, used: set<int>, c: Connection, used': set<int>)
    requires used == PortSet(conns) && FreshPorts(c, used, used')
    ensures used' == PortSet(conns + [c])
  {
    var n, next := |conns|, conns + [c];
    forall p | p in used'
      ensures p in PortSet(next)
    {
      if p in used {
        var i, k :| 0 <= i < n && 0 <= k < 4 && conns[i].ProxyPorts()[k] == p;
        assert next[i].ProxyPorts()[k] == p;
      } else {
        var k :| 0 <= k < 4 && c.ProxyPorts()[k] == p;
        assert next[n].ProxyPorts()[k] == p;
      }
    }
    forall p | p in PortSet(next)
      ensures p in used'
    {
      var i, k :| 0 <= i < |next| && 0 <= k < 4 && next[i].ProxyPorts()[k] == p;
      if i < n {
        assert conns[i].ProxyPorts()[k] in PortSet(conns);
      }
    }
  }

  lemma {:induction false} OpeningCount(ls: seq<Link>)
    ensures |Opening(ls)| == |Keys(ls)|
  {
    if ls != [] {
      var n := |ls| - 1;
      OpeningCount(ls[..n]);
      assert ls == ls[..n] + [ls[n]];
      KeysSnoc(ls[..n], ls[n]);
    }
  }

  /** While a pair not seen before is handled, fewer pairs have been seen than there are. */
  lemma KeysWithin(ls: seq<Link>, link: Link, whole: seq<Link>, all: set<Link>)
    requires ls + [link] <= whole && Keys(whole) <= all && Key(link) !in Keys(ls)
    ensures |Keys(ls)| < |all|
  {
    assert whole[|ls|] == link;
    forall l | l in ls + [link]
      ensures l in whole && Key(l) in all
    {
      var k :| 0 <= k < |ls + [link]| && (ls + [link])[k] == l;
      assert whole[k] == l;
      assert Key(l) in Keys(whole);
    }
    assert link in ls + [link];
    forall x | x in Keys(ls)
      ensures x in all
    {
      var l :| l in ls && Key(l) == x;
      assert l in ls + [link];
    }
    SubsetSize(Keys(ls) + {Key(link)}, all);
  }

  lemma PrefixKeys(es: seq<Entity>, i: nat)
    requires i < |es| && !es[i].Fuzzer()
    ensures Keys(Links(es[..i]) + LinksOf(es[i])) <= Keys(Links(es))
  {
    forall l | l in Links(es[..i]) + LinksOf(es[i])
      ensures l in Links(es)
    {
      if l in Links(es[..i]) {
        LinksPrefix(es, i, l);
      } else {
        var j :| 0 <= j < |LinksOf(es[i])| && LinksOf(es[i])[j] == l;
        LinksMember(es, i, j);
      }
    }
  }

  lemma {:induction false} LinksPrefix(es: seq<Entity>, i: nat, l: Link)
    requires i <= |es| && l in Links(es[..i])
    ensures l in Links(es)
  {
    if i < |es| {
      assert es[..|es| - 1][..i] == es[..i];
      LinksPrefix(es[..|es| - 1], i, l);
    } else {
      assert es[..i] == es;
    }
  }

  // ---------------------------------------------------------------- TCP

  method InjectTcpRedirections(config: ConfigFile) returns (outcome: Outcome)
    requires HasFuzzer(config.entities) ==>
      |UsedBy(config.entities)| + |Servers(config.entities)| <= PORT_COUNT
    modifies config
    ensures outcome == NoFuzzer <==> !HasFuzzer(old(config.entities))
    ensures outcome == NoFuzzer ==> config.entities == old(config.entities)
    ensures outcome != NoFuzzer ==>
      var es, f := old(config.entities), FuzzerIndex(old(config.entities));
      && outcome == Injected
      && exists rs ::
           Redirects(es, UsedBy(es), rs) && config.entities == es[f := es[f].(tcpRedirections := Some(rs))]
  {
    var es := config.entities;
    var f := FuzzerIndex(es);
    if f == |es| {
      return NoFuzzer;
    }
    var rs := CollectServers(es, UsedBy(es));
    config.entities := es[f := es[f].(tcpRedirections := Some(rs))];
    outcome := Injected;
  }

  /** The ports of the connections already injected into the fuzzer entity. */
  function UsedBy(es: seq<Entity>): (r: set<int>) {
    var f := FuzzerIndex(es);
    if f < |es| && es[f].connections.Some? then PortSet(es[f].connections.value) else {}
  }

  ghost predicate ServersSoFar(es: seq<Entity>, used: set<int>, rs: seq<TcpRedirection>, usedPorts: set<int>,
                               seen: set<Endpoint>)
  {
    && Redirects(es, used, rs)
    && used <= usedPorts && |usedPorts| <= |used| + |rs|
    && (forall i :: 0 <= i < |rs| ==> rs[i].proxyPort in usedPorts)
    && (forall s :: s in seen <==> s in Servers(es))
  }

  method CollectServers(es: seq<Entity>, used: set<int>) returns (rs: seq<TcpRedirection>)
    requires |used| + |Servers(es)| <= PORT_COUNT
    ensures Redirects(es, used, rs)
  {
    rs := [];
    var usedPorts := used;
    var seenServers: set<Endpoint> := {};
    for i := 0 to |es|
      invariant ServersSoFar(es[..i], used, rs, usedPorts, seenServers)
    {
      ServersMonotone(es, i + 1);
      ServersNext(es, i);
      var entity := es[i];
      var key := Endpoint(entity.ip, PortOr(entity.port));
      if TcpServer(entity) && key !in seenServers {
        var proxyPort := RandomPort(usedPorts);
        ServersStep(es[..i], es[..i + 1], used, rs, usedPorts, seenServers, key, proxyPort);
        seenServers := seenServers + {key};
        usedPorts := usedPorts + {proxyPort};
        rs := rs + [TcpRedirection(key.ip, key.port, proxyPort)];
      }
    }
    assert es[..|es|] == es;
  }

  lemma ServersStep(es: seq<Entity>, next: seq<Entity>, used: set<int>, rs: seq<TcpRedirection>, usedPorts: set<int>,
                    seen: set<Endpoint>, key: Endpoint, proxyPort: int)
    requires ServersSoFar(es, used, rs, usedPorts, seen) && Servers(next) == Servers(es) + [key]
    requires InRange(proxyPort) && proxyPort !in usedPorts
    ensures ServersSoFar(next, used, rs + [TcpRedirection(key.ip, key.port, proxyPort)],
                         usedPorts + {proxyPort}, seen + {key})
  {
  }

  lemma ServersNext(es: seq<Entity>, i: nat)
    requires i < |es|
    ensures var s, before := Endpoint(es[i].ip, PortOr(es[i].port)), Servers(es[..i]);
      Servers(es[..i + 1]) == if TcpServer(es[i]) && s !in before then before + [s] else before
  {
    assert es[..i + 1][..i] == es[..i];
  }

  lemma {:induction false} ServersMonotone(es: seq<Entity>, i: nat)
    requires i <= |es|
    ensures |Servers(es[..i])| <= |Servers(es)|
  {
    if i < |es| {
      ServersMonotone(es[..|es| - 1], i);
      assert es[..|es| - 1][..i] == es[..i];
    } else {
      assert es[..i] == es;
    }
  }

  // ---------------------------------------------------------------- one connection per pair

  lemma {:induction false} OpeningKeys(ls: seq<Link>)
    ensures forall o :: o in Opening(ls) ==> o in ls
    ensures Keys(Opening(ls)) == Keys(ls)
  {
    if ls != [] {
      var n := |ls| - 1;
      OpeningKeys(ls[..n]);
      assert ls == ls[..n] + [ls[n]];
      KeysSnoc(ls[..n], ls[n]);
      if Key(ls[n]) !in Keys(ls[..n]) {
        KeysSnoc(Opening(ls[..n]), ls[n]);
      }
    }
  }

  lemma {:induction false} OpeningDistinct(ls: seq<Link>)
    ensures forall i, j :: 0 <= i < j < |Opening(ls)| ==> Key(Opening(ls)[i]) != Key(Opening(ls)[j])
  {
    if ls != [] {
      var n := |ls| - 1;
      var front := Opening(ls[..n]);
      OpeningDistinct(ls[..n]);
      OpeningKeys(ls[..n]);
      forall i | 0 <= i < |front| ensures Key(front[i]) in Keys(ls[..n]) {
        assert front[i] in front;
      }
    }
  }

  /** Exactly one connection per undirected pair that is listed, and none besides. */
  lemma OneConnectionPerPair(ls: seq<Link>, conns: seq<Connection>)
    requires Connects(ls, conns)
    ensures forall c :: c in conns ==> LinkOf(c) in ls
    ensures forall l :: l in ls ==> exists i :: 0 <= i < |conns| && Key(LinkOf(conns[i])) == Key(l)
    ensures forall i, j :: 0 <= i < j < |conns| ==> Key(LinkOf(conns[i])) != Key(LinkOf(conns[j]))
    ensures |conns| == |Keys(ls)|
  {
    OpeningKeys(ls);
    OpeningDistinct(ls);
    OpeningCount(ls);
    forall l | l in ls
      ensures exists i :: 0 <= i < |conns| && Key(LinkOf(conns[i])) == Key(l)
    {
      assert Key(l) in Keys(Opening(ls));
      var o :| o in Opening(ls) && Key(o) == Key(l);
      var i :| 0 <= i < |Opening(ls)| && Opening(ls)[i] == o;
      assert LinkOf(conns[i]) == Opening(ls)[i];
    }
  }

  /** The undirected pairs the connections join. */
  function PairsOf(conns: seq<Connection>): (r: set<Link>) {
    set c | c in conns :: Key(LinkOf(c))
  }

  lemma PairsAreKeys(ls: seq<Link>, conns: seq<Connection>)
    requires Connects(ls, conns)
    ensures PairsOf(conns) == Keys(ls) && |conns| == |Keys(ls)|
  {
    OneConnectionPerPair(ls, conns);
    forall l | l in ls ensures Key(l) in PairsOf(conns) {
      var i :| 0 <= i < |conns| && Key(LinkOf(conns[i])) == Key(l);
      assert conns[i] in conns;
    }
  }

  /** It does not matter which end lists the other, nor how often. */
  lemma DirectionIrrelevant(ls: seq<Link>, ms: seq<Link>, conns: seq<Connection>, others: seq<Connection>)
    requires Connects(ls, conns) && Connects(ms, others)
    requires forall l :: l in ls ==> l in ms || Link(l.dst, l.src) in ms
    requires forall m :: m in ms ==> m in ls || Link(m.dst, m.src) in ls
    ensures PairsOf(conns) == PairsOf(others) && |conns| == |others|
  {
    PairsAreKeys(ls, conns);
    PairsAreKeys(ms, others);
    forall l | l in ls ensures Key(l) in Keys(ms) { KeyIsUndirected(l, Link(l.dst, l.src)); }
    forall m | m in ms ensures Key(m) in Keys(ls) { KeyIsUndirected(m, Link(m.dst, m.src)); }
    assert Keys(ls) == Keys(ms);
  }

  /** The same entity, but for the order and repetition of its destinations. */
  ghost predicate SameListing(e: Entity, f: Entity) {
    e.role == f.role && e.ip == f.ip && e.port == f.port && forall d :: d in e.destinations <==> d in f.destinations
  }

  ghost predicate ListedAmong(es: seq<Entity>, fs: seq<Entity>) {
    forall e :: e in es ==> exists f :: f in fs && SameListing(e, f)
  }

  /** Entities in another order, each with its destinations in another order, give connections
      for the same pairs. */
  lemma OrderIrrelevant(es: seq<Entity>, fs: seq<Entity>, conns: seq<Connection>, others: seq<Connection>)
    requires ListedAmong(es, fs) && ListedAmong(fs, es)
    requires Connects(Links(es), conns) && Connects(Links(fs), others)
    ensures PairsOf(conns) == PairsOf(others) && |conns| == |others|
  {
    forall l | l in Links(es) ensures l in Links(fs) { LinkAmong(es, fs, l); }
    forall l | l in Links(fs) ensures l in Links(es) { LinkAmong(fs, es, l); }
    DirectionIrrelevant(Links(es), Links(fs), conns, others);
  }

  lemma LinkAmong(es: seq<Entity>, fs: seq<Entity>, l: Link)
    requires ListedAmong(es, fs) && l in Links(es)
    ensures l in Links(fs)
  {
    LinksSource(es, l);
    var i :| 0 <= i < |es| && !es[i].Fuzzer() && l in LinksOf(es[i]);
    var j :| 0 <= j < |LinksOf(es[i])| && LinksOf(es[i])[j] == l;
    assert es[i] in es;
    var f :| f in fs && SameListing(es[i], f);
    var k :| 0 <= k < |fs| && fs[k] == f;
    assert es[i].destinations[j] in f.destinations;
    var m :| 0 <= m < |f.destinations| && f.destinations[m] == es[i].destinations[j];
    LinksMember(fs, k, m);
  }

  /** In particular a permutation of the entities. */
  lemma PermutationIrrelevant(es: seq<Entity>, fs: seq<Entity>, conns: seq<Connection>, others: seq<Connection>)
    requires multiset(es) == multiset(fs)
    requires Connects(Links(es), conns) && Connects(Links(fs), others)
    ensures PairsOf(conns) == PairsOf(others) && |conns| == |others|
  {
    forall e | e in es || e in fs
      ensures e in es && e in fs && SameListing(e, e)
    {
      assert e in multiset(es) && e in multiset(fs);
    }
    OrderIrrelevant(es, fs, conns, others);
  }

  /** Connection `c` joins the endpoints of `l`, and no other connection does. */
  ghost predicate OnlyServes(conns: seq<Connection>, c: int, l: Link) {
    && 0 <= c < |conns|
    && (LinkOf(conns[c]) == l || LinkOf(conns[c]) == Link(l.dst, l.src))
    && forall d :: 0 <= d < |conns| && Key(LinkOf(conns[d])) == Key(l) ==> d == c
  }

  lemma ServedOnce(ls: seq<Link>, conns: seq<Connection>, l: Link) returns (c: nat)
    requires Connects(ls, conns) && l in ls
    ensures OnlyServes(conns, c, l)
  {
    OneConnectionPerPair(ls, conns);
    c :| 0 <= c < |conns| && Key(LinkOf(conns[c])) == Key(l);
    KeyIsUndirected(LinkOf(conns[c]), l);
  }

  /** Entities `i` and `k` list each other, as destinations `j` and `l`, without a port. */
  ghost predicate Mutual(es: seq<Entity>, i: nat, k: nat, j: nat, l: nat) {
    && i < |es| && k < |es| && es[i].Udp() && es[k].Udp() && !es[i].Fuzzer() && !es[k].Fuzzer()
    && j < |es[i].destinations| && es[i].destinations[j] == Destination(es[k].ip, None)
    && l < |es[k].destinations| && es[k].destinations[l] == Destination(es[i].ip, None)
  }

  lemma MutualKeys(es: seq<Entity>, i: nat, k: nat, j: nat, l: nat)
    requires UniqueIps(es) && Mutual(es, i, k, j, l)
    ensures var m, n := LinksOf(Normalized(es)[i])[j], LinksOf(Normalized(es)[k])[l];
      n == Link(m.dst, m.src) && Key(m) == Key(n) && m in Links(Normalized(es))
  {
    var ns := Normalized(es);
    OmittedPortIsEntityPort(es, i);
    OmittedPortIsEntityPort(es, k);
    KeyIsUndirected(LinksOf(ns[i])[j], LinksOf(ns[k])[l]);
    LinksMember(ns, i, j);
  }

  /** Two UDP entities that list each other without destination ports share one connection. */
  lemma MutualListing(es: seq<Entity>, i: nat, k: nat, j: nat, l: nat, conns: seq<Connection>) returns (c: nat)
    requires UniqueIps(es) && Mutual(es, i, k, j, l) && Connects(Links(Normalized(es)), conns)
    ensures OnlyServes(conns, c, LinksOf(Normalized(es)[i])[j])
    ensures OnlyServes(conns, c, LinksOf(Normalized(es)[k])[l])
  {
    MutualKeys(es, i, k, j, l);
    c := ServedOnce(Links(Normalized(es)), conns, LinksOf(Normalized(es)[i])[j]);
  }

  /** If nothing else is listed, it is the only connection. */
  lemma MutualListingAlone(es: seq<Entity>, i: nat, k: nat, j: nat, l: nat, conns: seq<Connection>)
    requires UniqueIps(es) && Mutual(es, i, k, j, l) && Connects(Links(Normalized(es)), conns)
    requires forall x :: x in Links(Normalized(es)) ==>
      x == LinksOf(Normalized(es)[i])[j] || x == LinksOf(Normalized(es)[k])[l]
    ensures |conns| == 1
  {
    MutualKeys(es, i, k, j, l);
    OneConnectionPerPair(Links(Normalized(es)), conns);
    SameKey(Links(Normalized(es)), LinksOf(Normalized(es)[i])[j]);
  }

  lemma SameKey(ls: seq<Link>, m: Link)
    requires m in ls && forall l :: l in ls ==> Key(l) == Key(m)
    ensures |Keys(ls)| == 1
  {
    assert Key(m) in Keys(ls);
    assert Keys(ls) == {Key(m)};
  }

  /** All proxy ports, UDP and TCP together, are distinct numbers of the range. */
  lemma AllPortsDistinct(es: seq<Entity>, conns: seq<Connection>, rs: seq<TcpRedirection>)
    requires PortsDistinct(conns) && Redirects(es, PortSet(conns), rs)
    ensures forall i, k, j :: 0 <= i < |conns| && 0 <= k < 4 && 0 <= j < |rs| ==>
      conns[i].ProxyPorts()[k] != rs[j].proxyPort
    ensures |PortSet(conns) + (set r | r in rs :: r.proxyPort)| == 4 * |conns| + |rs|
    ensures forall p :: p in PortSet(conns) + (set r | r in rs :: r.proxyPort) ==> InRange(p)
  {
    forall i, k, j | 0 <= i < |conns| && 0 <= k < 4 && 0 <= j < |rs|
      ensures conns[i].ProxyPorts()[k] != rs[j].proxyPort
    {
      assert conns[i].ProxyPorts()[k] in PortSet(conns);
    }
    PortSetSize(conns);
    TcpPortsSize(rs);
    var tcp := set r | r in rs :: r.proxyPort;
    assert PortSet(conns) !! tcp;
    assert |PortSet(conns) + tcp| == |PortSet(conns)| + |tcp|;
  }

  lemma {:induction false} TcpPortsSize(rs: seq<TcpRedirection>)
    requires forall i, j :: 0 <= i < j < |rs| ==> rs[i].proxyPort != rs[j].proxyPort
    ensures |set r | r in rs :: r.proxyPort| == |rs|
  {
    if rs != [] {
      var n := |rs| - 1;
      TcpPortsSize(rs[..n]);
      var front := set r | r in rs[..n] :: r.proxyPort;
      assert rs[n].proxyPort !in front;
      assert (set r | r in rs :: r.proxyPort) == front + {rs[n].proxyPort};
    }
  }

  lemma {:induction false} PortSetSize(conns: seq<Connection>)
    requires PortsDistinct(conns)
    ensures |PortSet(conns)| == 4 * |conns|
  {
    if conns != [] {
      var n := |conns| - 1;
      var c, ps := conns[n], conns[n].ProxyPorts();
      PortSetSize(conns[..n]);
      var front := PortSet(conns[..n]);
      forall k, i, l | 0 <= k < 4 && 0 <= i < n && 0 <= l < 4
        ensures conns[..n][i].ProxyPorts()[l] != ps[k]
      {
        assert conns[..n][i] == conns[i];
      }
      assert conns[..n] + [c] == conns;
      forall k, l | 0 <= k < l < 4 ensures ps[k] != ps[l] {
        assert conns[n].ProxyPorts()[k] != conns[n].ProxyPorts()[l];
      }
      FourMore(front, ps[0], ps[1], ps[2], ps[3]);
      PortsGrow(conns[..n], front, c, front + {ps[0], ps[1], ps[2], ps[3]});
    }
  }

  lemma FourMore(s: set<int>, a: int, b: int, c: int, d: int)
    requires a !in s && b !in s && c !in s && d !in s
    requires a != b && a != c && a != d && b != c && b != d && c != d
    ensures |s + {a, b, c, d}| == |s| + 4
  {
  }
}
