/** The configuration steps of commander/main.py in their order. */
module Commander {
  import opened Base
  import opened Topology
  import opened PortNormalizer
  import opened Redirections

  /** Only the fuzzer's two injected lists differ. */
  ghost predicate Prepared(es: seq<Entity>, result: seq<Entity>, conns: seq<Connection>, rs: seq<TcpRedirection>) {
    var ns, f := Normalized(es), FuzzerIndex(Normalized(es));
    && f < |ns| && PortsPresent(ns)
    && result == ns[f := ns[f].(connections := Some(conns), tcpRedirections := Some(rs))]
    && Connects(Links(ns), conns)
    && Redirects(ns, PortSet(conns), rs)
  }

  /** 4n UDP ports and m TCP ports are available as long as 4n + m <= 40001. */
  method Prepare(config: ConfigFile)
    returns (outcome: Outcome, ghost conns: seq<Connection>, ghost rs: seq<TcpRedirection>)
    requires var ns := Normalized(config.entities);
      4 * |Keys(Links(ns))| + |Servers(ns)| <= PORT_COUNT
    modifies config
    ensures outcome == NoFuzzer <==> !HasFuzzer(Normalized(old(config.entities)))
    ensures outcome == KeyError <==>
      HasFuzzer(Normalized(old(config.entities))) && !PortsPresent(Normalized(old(config.entities)))
    ensures outcome == Injected ==> Prepared(old(config.entities), config.entities, conns, rs)
    ensures outcome != Injected ==> config.entities == Normalized(old(config.entities))
  {
    conns, rs := [], [];
    config.NormalizeUdpPorts();
    ghost var ns := config.entities;
    FuzzerFound(ns);
    outcome := InjectFuzzerRedirections(config);
    if outcome == Injected {
      conns :| Connects(Links(ns), conns) && config.entities == WithConnections(ns, conns);
      rs := FinishTcp(config, ns, conns);
    }
  }

  ghost function WithConnections(ns: seq<Entity>, conns: seq<Connection>): (r: seq<Entity>)
    requires FuzzerIndex(ns) < |ns|
  {
    ns[FuzzerIndex(ns) := ns[FuzzerIndex(ns)].(connections := Some(conns))]
  }

  method FinishTcp(config: ConfigFile, ghost ns: seq<Entity>, ghost conns: seq<Connection>)
    returns (ghost rs: seq<TcpRedirection>)
    requires FuzzerIndex(ns) < |ns| && Connects(Links(ns), conns)
    requires config.entities == WithConnections(ns, conns)
    requires 4 * |Keys(Links(ns))| + |Servers(ns)| <= PORT_COUNT
    modifies config
    ensures Redirects(ns, PortSet(conns), rs)
    ensures var f := FuzzerIndex(ns);
      config.entities == ns[f := ns[f].(connections := Some(conns), tcpRedirections := Some(rs))]
  {
    ghost var fs := config.entities;
    UsedPorts(ns, conns);
    SameServers(ns, fs);
    assert |UsedBy(fs)| == 4 * |Keys(Links(ns))| by {
      OneConnectionPerPair(Links(ns), conns);
      PortSetSize(conns);
    }
    var outcome := InjectTcpRedirections(config);
    rs :| Redirects(fs, UsedBy(fs), rs) &&
          config.entities == fs[FuzzerIndex(fs) := fs[FuzzerIndex(fs)].(tcpRedirections := Some(rs))];
  }

  lemma UsedPorts(ns: seq<Entity>, conns: seq<Connection>)
    requires FuzzerIndex(ns) < |ns|
    ensures var fs := WithConnections(ns, conns);
      FuzzerIndex(fs) == FuzzerIndex(ns) && HasFuzzer(fs) && UsedBy(fs) == PortSet(conns)
  {
    SameIndex(ns, WithConnections(ns, conns));
    FuzzerFound(WithConnections(ns, conns));
  }

  lemma SameIndex(es: seq<Entity>, fs: seq<Entity>)
    requires |es| == |fs| && forall i :: 0 <= i < |es| ==> es[i].Fuzzer() == fs[i].Fuzzer()
    ensures FuzzerIndex(es) == FuzzerIndex(fs)
  {
  }

  lemma {:induction false} SameServers(es: seq<Entity>, fs: seq<Entity>)
    requires |es| == |fs|
    requires forall i :: 0 <= i < |es| ==>
      es[i].role == fs[i].role && es[i].protocol == fs[i].protocol && es[i].ip == fs[i].ip && es[i].port == fs[i].port
    ensures Servers(es) == Servers(fs)
  {
    if es != [] {
      SameServers(es[..|es| - 1], fs[..|fs| - 1]);
    }
  }

  lemma FuzzerFound(es: seq<Entity>)
    ensures HasFuzzer(es) <==> FuzzerIndex(es) < |es|
  {
  }
}
