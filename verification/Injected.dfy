/** What the commander injects, stated on the entries of the configuration file themselves. */
module Injected {
  import opened Base
  import opened Topology
  import opened PortNormalizer
  import opened Redirections

  // ---------------------------------------------------------------- TCP servers

  predicate Serves(e: Entity) {
    && e.role == "server" && e.protocol == Some("tcp") && e.ip != ""
    && e.port.Some? && e.port.value != -1
  }

  /** No earlier entity serves at the same address. */
  predicate FirstToServe(es: seq<Entity>, i: nat) {
    && i < |es| && Serves(es[i])
    && forall k :: 0 <= k < i && Serves(es[k]) ==> es[k].ip != es[i].ip || es[k].port != es[i].port
  }

  function FirstsToServe(es: seq<Entity>): (r: seq<bool>) {
    seq(|es|, i requires 0 <= i < |es| => FirstToServe(es, i))
  }

  function Addresses(es: seq<Entity>): (r: seq<Endpoint>) {
    seq(|es|, i requires 0 <= i < |es| =>
      Endpoint(es[i].ip, if es[i].port.Some? then es[i].port.value else -1))
  }

  lemma FirstsNext(es: seq<Entity>, e: Entity)
    ensures FirstsToServe(es + [e]) == FirstsToServe(es) + [FirstToServe(es + [e], |es|)]
  {
    forall i | 0 <= i < |es|
      ensures FirstToServe(es + [e], i) <==> FirstToServe(es, i)
    {
      assert forall k :: 0 <= k <= i ==> (es + [e])[k] == es[k];
    }
  }

  ghost predicate ServedAt(es: seq<Entity>, x: Endpoint) {
    exists i :: 0 <= i < |es| && Serves(es[i]) && x == Endpoint(es[i].ip, es[i].port.value)
  }

  lemma ServedNext(es: seq<Entity>, e: Entity, x: Endpoint)
    ensures ServedAt(es + [e], x) <==> ServedAt(es, x) || (Serves(e) && x == Endpoint(e.ip, e.port.value))
  {
    if ServedAt(es, x) {
      var i :| 0 <= i < |es| && Serves(es[i]) && x == Endpoint(es[i].ip, es[i].port.value);
      assert (es + [e])[i] == es[i];
    }
    if Serves(e) && x == Endpoint(e.ip, e.port.value) {
      assert (es + [e])[|es|] == e;
    }
  }

  /** The servers are the addresses of these entities, in their order. */
  lemma {:induction false} ServersExactly(es: seq<Entity>)
    ensures Filtered(Addresses(es), FirstsToServe(es), Servers(es))
    ensures forall x :: x in Servers(es) <==> ServedAt(es, x)
    ensures forall a, b :: 0 <= a < b < |Servers(es)| ==> Servers(es)[a] != Servers(es)[b]
  {
    if es != [] {
      var front, e := es[..|es| - 1], es[|es| - 1];
      assert es == front + [e];
      ServersExactly(front);
      var x := Endpoint(e.ip, if e.port.Some? then e.port.value else -1);
      FirstMeansNew(front, e);
      FilteredNext(Addresses(front), FirstsToServe(front), Servers(front), x, FirstToServe(es, |front|));
      assert Addresses(es) == Addresses(front) + [x];
      FirstsNext(front, e);
      forall y ensures y in Servers(es) <==> ServedAt(es, y) { ServedNext(front, e, y); }
    }
  }

  lemma FirstMeansNew(es: seq<Entity>, e: Entity)
    requires forall x :: x in Servers(es) <==> ServedAt(es, x)
    ensures Serves(e) <==> TcpServer(e)
    ensures FirstToServe(es + [e], |es|) <==> Serves(e) && Endpoint(e.ip, e.port.value) !in Servers(es)
  {
    assert forall k :: 0 <= k < |es| ==> (es + [e])[k] == es[k];
  }

  // ---------------------------------------------------------------- connections

  /** The list of links is the listings of all entities but the fuzzer, in order: listing `j` of
      entity `i` comes after all those of earlier entities. */
  lemma {:induction false} LinksExactly(es: seq<Entity>, i: nat, j: nat)
    requires i < |es| && es[i].role != "fuzzer" && es[i].port.Some?
    requires j < |es[i].destinations| && es[i].destinations[j].port.Some?
    ensures var e, d := es[i], es[i].destinations[j];
      && |Links(es[..i])| + j < |Links(es)|
      && Links(es)[|Links(es[..i])| + j] == Link(Endpoint(e.ip, e.port.value), Endpoint(d.ip, d.port.value))
  {
    var n := |es| - 1;
    if i < n {
      assert es[..n][..i] == es[..i];
      LinksExactly(es[..n], i, j);
    }
  }

  /** And of nothing else. */
  lemma LinksCount(es: seq<Entity>)
    ensures es == [] ==> Links(es) == []
    ensures es != [] ==>
      var e := es[|es| - 1];
      |Links(es)| == |Links(es[..|es| - 1])| + if e.role == "fuzzer" then 0 else |e.destinations|
  {
  }

  /** Link `p` is the first to join its two endpoints. */
  predicate Opens(ls: seq<Link>, p: nat) {
    p < |ls| && forall q :: 0 <= q < p ==> ls[q] != ls[p] && ls[q] != Link(ls[p].dst, ls[p].src)
  }

  function Openers(ls: seq<Link>): (r: seq<bool>) {
    seq(|ls|, p requires 0 <= p < |ls| => Opens(ls, p))
  }

  lemma OpenersNext(ls: seq<Link>, l: Link)
    ensures Openers(ls + [l]) == Openers(ls) + [Opens(ls + [l], |ls|)]
  {
    forall p | 0 <= p < |ls|
      ensures Opens(ls + [l], p) <==> Opens(ls, p)
    {
      assert forall q :: 0 <= q <= p ==> (ls + [l])[q] == ls[q];
    }
  }

  lemma OpensMeansNew(ls: seq<Link>, l: Link)
    ensures Opens(ls + [l], |ls|) <==> Key(l) !in Keys(ls)
  {
    KeySeen(ls, l);
    assert forall q :: 0 <= q < |ls| ==> (ls + [l])[q] == ls[q];
  }

  /** Exactly these links open a connection, in their order. */
  lemma {:induction false} OpeningExactly(ls: seq<Link>)
    ensures Filtered(ls, Openers(ls), Opening(ls))
  {
    if ls != [] {
      var front, l := ls[..|ls| - 1], ls[|ls| - 1];
      assert ls == front + [l];
      OpeningExactly(front);
      OpensMeansNew(front, l);
      OpenersNext(front, l);
      KeysSnoc(front, l);
      FilteredNext(front, Openers(front), Opening(front), l, Opens(ls, |front|));
    }
  }

  lemma KeySeen(ls: seq<Link>, l: Link)
    ensures Key(l) in Keys(ls) <==> exists q :: 0 <= q < |ls| && (ls[q] == l || ls[q] == Link(l.dst, l.src))
  {
    if Key(l) in Keys(ls) {
      var m :| m in ls && Key(m) == Key(l);
      var q :| 0 <= q < |ls| && ls[q] == m;
      KeyIsUndirected(m, l);
    }
    forall q | 0 <= q < |ls| && (ls[q] == l || ls[q] == Link(l.dst, l.src))
      ensures Key(l) in Keys(ls)
    {
      KeyIsUndirected(ls[q], l);
      assert ls[q] in ls;
    }
  }

  ghost predicate Listing(es: seq<Entity>, i: nat, j: nat) {
    i < |es| && es[i].role != "fuzzer" && j < |es[i].destinations|
  }

  /** Connection `c` is the one of listing `j` of entity `i`, seen from that entity. */
  ghost predicate ListedAs(es: seq<Entity>, i: nat, j: nat, c: Connection) {
    && Listing(es, i, j)
    && c.aIp == es[i].ip && Some(c.aPort) == es[i].port
    && c.bIp == es[i].destinations[j].ip && Some(c.bPort) == es[i].destinations[j].port
  }

  /** Seen from either end. */
  ghost predicate Joins(es: seq<Entity>, i: nat, j: nat, c: Connection) {
    || ListedAs(es, i, j, c)
    || ListedAs(es, i, j, c.(aIp := c.bIp, aPort := c.bPort, bIp := c.aIp, bPort := c.aPort))
  }

  ghost predicate JoinedOnlyBy(es: seq<Entity>, i: nat, j: nat, conns: seq<Connection>, k: nat) {
    k < |conns| && forall l :: 0 <= l < |conns| ==> (Joins(es, i, j, conns[l]) <==> l == k)
  }

  /** Every connection is some entity's listing, with that entity as A, and every listing is
      joined by exactly one connection. */
  lemma ConnectionsExactly(es: seq<Entity>, conns: seq<Connection>)
    requires PortsPresent(es) && Connects(Links(es), conns)
    ensures forall c :: c in conns ==> exists i, j :: ListedAs(es, i, j, c)
    ensures forall i, j :: Listing(es, i, j) ==> exists k :: JoinedOnlyBy(es, i, j, conns, k)
  {
    OneConnectionPerPair(Links(es), conns);
    forall c | c in conns ensures exists i, j :: ListedAs(es, i, j, c) {
      LinksSource(es, LinkOf(c));
      var i :| 0 <= i < |es| && !es[i].Fuzzer() && LinkOf(c) in LinksOf(es[i]);
      var j :| 0 <= j < |LinksOf(es[i])| && LinksOf(es[i])[j] == LinkOf(c);
      assert HasPorts(es[i]) && ListedAs(es, i, j, c);
    }
    forall i: nat, j: nat | Listing(es, i, j) ensures exists k :: JoinedOnlyBy(es, i, j, conns, k) {
      var k := JoinedOnce(es, conns, i, j);
    }
  }

  lemma JoinedOnce(es: seq<Entity>, conns: seq<Connection>, i: nat, j: nat) returns (k: nat)
    requires PortsPresent(es) && Connects(Links(es), conns) && Listing(es, i, j)
    ensures JoinedOnlyBy(es, i, j, conns, k)
  {
    assert HasPorts(es[i]);
    var m := LinksOf(es[i])[j];
    LinksMember(es, i, j);
    k := ServedOnce(Links(es), conns, m);
    forall l | 0 <= l < |conns| && Joins(es, i, j, conns[l])
      ensures l == k
    {
      KeyIsUndirected(LinkOf(conns[l]), m);
    }
  }

  // ---------------------------------------------------------------- outcomes

  ghost predicate PortsGiven(e: Entity) {
    e.port.Some? && forall j :: 0 <= j < |e.destinations| ==> e.destinations[j].port.Some?
  }

  /** When injection stops, and which entity it writes to. */
  lemma OutcomesExactly(es: seq<Entity>)
    ensures HasFuzzer(es) <==> exists i :: 0 <= i < |es| && es[i].role == "fuzzer"
    ensures FuzzerIndex(es) < |es| <==> HasFuzzer(es)
    ensures FuzzerIndex(es) < |es| ==>
      es[FuzzerIndex(es)].role == "fuzzer" && forall i :: 0 <= i < FuzzerIndex(es) ==> es[i].role != "fuzzer"
    ensures PortsPresent(es) <==> forall i :: 0 <= i < |es| && es[i].role != "fuzzer" ==> PortsGiven(es[i])
  {
    assert forall i :: 0 <= i < |es| ==> (HasPorts(es[i]) <==> es[i].role == "fuzzer" || PortsGiven(es[i]));
  }

  /** The ports, in figures. */
  lemma PortsInFigures(es: seq<Entity>, conns: seq<Connection>, rs: seq<TcpRedirection>)
    requires PortsDistinct(conns) && Redirects(es, PortSet(conns), rs)
    ensures forall c :: c in conns ==>
      && 20000 <= c.aRecv <= 60000 && 20000 <= c.aSend <= 60000
      && 20000 <= c.bRecv <= 60000 && 20000 <= c.bSend <= 60000
      && |{c.aRecv, c.aSend, c.bRecv, c.bSend}| == 4
    ensures forall r :: r in rs ==> 20000 <= r.proxyPort <= 60000
    ensures PORT_COUNT == 60000 - 20000 + 1
  {
    forall c | c in conns
      ensures forall k :: 0 <= k < 4 ==> InRange(c.ProxyPorts()[k])
      ensures forall k, l :: 0 <= k < l < 4 ==> c.ProxyPorts()[k] != c.ProxyPorts()[l]
    {
      var i :| 0 <= i < |conns| && conns[i] == c;
      assert forall k :: 0 <= k < 4 ==> InRange(conns[i].ProxyPorts()[k]);
      assert forall k, l :: 0 <= k < l < 4 ==> conns[i].ProxyPorts()[k] != conns[i].ProxyPorts()[l];
    }
    forall c | c in conns
      ensures 20000 <= c.aRecv <= 60000 && 20000 <= c.aSend <= 60000
      ensures 20000 <= c.bRecv <= 60000 && 20000 <= c.bSend <= 60000
      ensures |{c.aRecv, c.aSend, c.bRecv, c.bSend}| == 4
    {
      var ps := c.ProxyPorts();
      assert ps[0] == c.aRecv && ps[1] == c.aSend && ps[2] == c.bRecv && ps[3] == c.bSend;
    }
  }
}
