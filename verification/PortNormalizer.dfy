/** normalize_udp_ports of commander/config_loader.py: two passes that complete missing ports. */
module PortNormalizer {
  import opened Base
  import opened Topology

  /** The configuration the commander's functions update in place. */
  class ConfigFile {
    var entities: seq<Entity>

    constructor (entities: seq<Entity>)
      ensures this.entities == entities
    {
      this.entities := entities;
    }

    method NormalizeUdpPorts()
      modifies this
      ensures entities == Normalized(old(entities))
    {
      ghost var es := entities;
      var ipToPort: map<string, int> := map[];
      for i := 0 to |entities|
        invariant |entities| == |es| && ipToPort == PortTable(es[..i])
        invariant forall k :: 0 <= k < |es| ==> entities[k] == if k < i then WithPort(es[k]) else es[k]
      {
        assert es[..i + 1][..i] == es[..i];
        var entity := entities[i];
        if entity.Udp() {
          if entity.port.None? {
            entities := entities[i := entity.(port := Some(-1))];
            ipToPort := ipToPort[entity.ip := -1];
          } else {
            ipToPort := ipToPort[entity.ip := entity.port.value];
          }
        }
      }
      assert es[..|es|] == es;
      for i := 0 to |entities|
        invariant |entities| == |es|
        invariant forall k :: 0 <= k < |es| ==>
          entities[k] == if k < i then WithDestinations(ipToPort, WithPort(es[k])) else WithPort(es[k])
      {
        if entities[i].Udp() {
          var dests := entities[i].destinations;
          for j := 0 to |dests|
            invariant |dests| == |entities[i].destinations|
            invariant forall k :: 0 <= k < |dests| ==>
              var d := entities[i].destinations[k];
              dests[k] == if k < j then Completed(ipToPort, d) else d
          {
            if dests[j].port.None? && dests[j].ip in ipToPort {
              dests := dests[j := dests[j].(port := Some(ipToPort[dests[j].ip]))];
            }
          }
          assert dests == WithDestinations(ipToPort, entities[i]).destinations;
          entities := entities[i := entities[i].(destinations := dests)];
        }
      }
    }
  }

  function WithPort(e: Entity): (r: Entity) {
    if e.Udp() && e.port.None? then e.(port := Some(DYNAMIC)) else e
  }

  /** The port of each UDP entity's IP; a later entity with the same IP wins. */
  function PortTable(es: seq<Entity>): (r: map<string, int>) {
    if es == [] then map[]
    else
      var e := es[|es| - 1];
      var rest := PortTable(es[..|es| - 1]);
      if !e.Udp() then rest
      else rest[e.ip := if e.port.None? then DYNAMIC else e.port.value]
  }

  function Completed(table: map<string, int>, d: Destination): (r: Destination) {
    if d.port.None? && d.ip in table then d.(port := Some(table[d.ip])) else d
  }

  function WithDestinations(table: map<string, int>, e: Entity): (r: Entity) {
    if !e.Udp() then e
    else
      var ds := e.destinations;
      e.(destinations := seq(|ds|, j requires 0 <= j < |ds| => Completed(table, ds[j])))
  }

  function Normalized(es: seq<Entity>): (r: seq<Entity>) {
    seq(|es|, i requires 0 <= i < |es| => WithDestinations(PortTable(es), WithPort(es[i])))
  }

  // ---------------------------------------------------------------- what normalisation promises

  ghost predicate UdpAt(es: seq<Entity>, ip: string) {
    exists i :: 0 <= i < |es| && es[i].Udp() && es[i].ip == ip
  }

  lemma {:induction false} TableDomain(es: seq<Entity>, ip: string)
    ensures ip in PortTable(es) <==> UdpAt(es, ip)
  {
    if es != [] {
      TableDomain(es[..|es| - 1], ip);
      forall i | 0 <= i < |es| - 1 && es[i].Udp() && es[i].ip == ip
        ensures ip in PortTable(es[..|es| - 1])
      {
        assert es[..|es| - 1][i].ip == ip;
      }
    }
  }

  /** Every UDP entity gets a port, and a destination of one stays without a port exactly when
      it had none and no UDP entity has its IP. */
  lemma PortsCompleted(es: seq<Entity>, i: nat)
    requires i < |es| && es[i].Udp()
    ensures Normalized(es)[i].port == Some(if es[i].port.None? then DYNAMIC else es[i].port.value)
    ensures forall j :: 0 <= j < |es[i].destinations| ==>
      var d, d' := es[i].destinations[j], Normalized(es)[i].destinations[j];
      d'.ip == d.ip && (d'.port.None? <==> d.port.None? && !UdpAt(es, d.ip))
  {
    forall j | 0 <= j < |es[i].destinations|
      ensures var d, d' := es[i].destinations[j], Normalized(es)[i].destinations[j];
        d'.ip == d.ip && (d'.port.None? <==> d.port.None? && !UdpAt(es, d.ip))
    {
      TableDomain(es, es[i].destinations[j].ip);
    }
  }

  ghost predicate UniqueIps(es: seq<Entity>) {
    forall i, j :: 0 <= i < j < |es| ==> es[i].ip != es[j].ip
  }

  /** Entity `l` is the last UDP entity with this IP. */
  ghost predicate LastUdp(es: seq<Entity>, ip: string, l: nat) {
    && l < |es| && es[l].Udp() && es[l].ip == ip
    && forall m :: l < m < |es| && es[m].Udp() ==> es[m].ip != ip
  }

  /** With one entity per IP an omitted destination port becomes the destination's own port. */
  lemma OmittedPortIsEntityPort(es: seq<Entity>, k: nat)
    requires UniqueIps(es) && k < |es| && es[k].Udp()
    ensures es[k].ip in PortTable(es)
    ensures Normalized(es)[k].port == Some(PortTable(es)[es[k].ip])
  {
    OmittedPortIsLast(es, k, k);
  }

  /** In general it does so exactly when the last UDP entity with that IP has the same port. */
  lemma OmittedPortIsLast(es: seq<Entity>, k: nat, l: nat)
    requires k < |es| && es[k].Udp() && LastUdp(es, es[k].ip, l)
    ensures es[k].ip in PortTable(es)
    ensures Normalized(es)[k].port == Some(PortTable(es)[es[k].ip]) <==> WithPort(es[k]).port == WithPort(es[l]).port
  {
    TableValue(es, l);
  }

  lemma {:induction false} TableValue(es: seq<Entity>, l: nat)
    requires l < |es| && LastUdp(es, es[l].ip, l)
    ensures es[l].ip in PortTable(es)
    ensures Some(PortTable(es)[es[l].ip]) == WithPort(es[l]).port
  {
    var n := |es| - 1;
    if l < n {
      TableValue(es[..n], l);
    }
  }

  /** The whole effect on one entity: nothing unless it is UDP; then a missing port becomes -1,
      a destination with a port is left alone, and one without gets the port of the last UDP
      entity with its IP, if there is one. */
  lemma NormalizedExactly(es: seq<Entity>, i: nat)
    requires i < |es|
    ensures |Normalized(es)| == |es|
    ensures es[i].protocol != Some("udp") ==> Normalized(es)[i] == es[i]
    ensures es[i].protocol == Some("udp") ==>
      var e, e' := es[i], Normalized(es)[i];
      && e' == e.(port := Some(if e.port.Some? then e.port.value else -1), destinations := e'.destinations)
      && |e'.destinations| == |e.destinations|
      && forall j :: 0 <= j < |e.destinations| ==>
           var d, d' := e.destinations[j], e'.destinations[j];
           && (d.port.Some? ==> d' == d)
           && (d.port.None? && (forall l :: 0 <= l < |es| && es[l].protocol == Some("udp") ==> es[l].ip != d.ip) ==>
                 d' == d)
           && (forall l :: 0 <= l < |es| && d.port.None? && LastUdpEntity(es, d.ip, l) ==>
                 d' == Destination(d.ip, Some(if es[l].port.Some? then es[l].port.value else -1)))
  {
    if es[i].protocol == Some("udp") {
      forall j | 0 <= j < |es[i].destinations|
        ensures es[i].destinations[j].port.Some? ==> Normalized(es)[i].destinations[j] == es[i].destinations[j]
        ensures var d := es[i].destinations[j];
          d.port.None? && (forall l :: 0 <= l < |es| && es[l].protocol == Some("udp") ==> es[l].ip != d.ip) ==>
            Normalized(es)[i].destinations[j] == d
        ensures var d := es[i].destinations[j];
          forall l :: 0 <= l < |es| && d.port.None? && LastUdpEntity(es, d.ip, l) ==>
            Normalized(es)[i].destinations[j]
            == Destination(d.ip, Some(if es[l].port.Some? then es[l].port.value else -1))
      {
        CompletedExactly(es, es[i].destinations[j]);
      }
    }
  }

  /** `LastUdp` in the words of the configuration file. */
  ghost predicate LastUdpEntity(es: seq<Entity>, ip: string, l: nat) {
    && l < |es| && es[l].protocol == Some("udp") && es[l].ip == ip
    && forall m :: l < m < |es| && es[m].protocol == Some("udp") ==> es[m].ip != ip
  }

  lemma CompletedExactly(es: seq<Entity>, d: Destination)
    ensures d.port.Some? ==> Completed(PortTable(es), d) == d
    ensures d.port.None? && (forall l :: 0 <= l < |es| && es[l].protocol == Some("udp") ==> es[l].ip != d.ip) ==>
      Completed(PortTable(es), d) == d
    ensures forall l :: 0 <= l < |es| && d.port.None? && LastUdpEntity(es, d.ip, l) ==>
      Completed(PortTable(es), d) == Destination(d.ip, Some(if es[l].port.Some? then es[l].port.value else -1))
  {
    TableDomain(es, d.ip);
    forall l | 0 <= l < |es| && d.port.None? && LastUdpEntity(es, d.ip, l)
      ensures Completed(PortTable(es), d) == Destination(d.ip, Some(if es[l].port.Some? then es[l].port.value else -1))
    {
      assert LastUdp(es, d.ip, l);
      TableValue(es, l);
    }
  }

  lemma {:induction false} TableStable(es: seq<Entity>, fs: seq<Entity>)
    requires |es| == |fs|
    requires forall i :: 0 <= i < |es| ==>
      fs[i].Udp() == es[i].Udp() && fs[i].ip == es[i].ip
      && (es[i].Udp() ==> fs[i].port == WithPort(es[i]).port)
    ensures PortTable(fs) == PortTable(es)
  {
    if es != [] {
      TableStable(es[..|es| - 1], fs[..|es| - 1]);
    }
  }

  /** The commander rewrites config.yaml on every start; a second pass changes nothing. */
  lemma NormalizedIdempotent(es: seq<Entity>)
    ensures Normalized(Normalized(es)) == Normalized(es)
  {
    var fs := Normalized(es);
    TableStable(es, fs);
    forall i | 0 <= i < |fs|
      ensures Normalized(fs)[i] == fs[i]
    {
      assert Normalized(fs)[i].destinations == fs[i].destinations;
    }
  }
}
