/** The objects of proxy/src/UDPHandler.cpp and proxy/inc/UDPConnection.hpp: the socket
    tables, the shared port queue, and one pass through each thread's loop. The thread
    bodies are tied to the atomic steps of `ProxyMachine`. */
module UdpHandlers {
  import opened Base
  import opened Topology
  import M = ProxyMachine
  import F = FuzzerCore

  /** The payload sent for `data` when every allocation succeeds. */
  ghost function Fuzzed(data: seq<Byte>, run: Option<seq<Byte>>): seq<Byte> {
    var m := F.Yield(data, run);
    if m.Usable(F.PROXY_LIMITS, data) then F.Clip(F.Post(F.PROXY_LIMITS, data, m)) else []
  }

  /** After a mutation step `f` the payload is empty exactly if a later allocation failed. */
  ghost predicate IsPayload(data: seq<Byte>, f: F.Fuzz, failures: nat, payload: seq<Byte>) {
    && f.m.Usable(F.PROXY_LIMITS, data)
    && payload == if failures > f.failures then [] else F.Clip(F.Post(F.PROXY_LIMITS, data, f.m))
  }

  /** If nothing fails, what is sent for a datagram of 1 to 4096 bytes is 65499 bytes: the
      datagram, then what the mutator wrote over and over, or the datagram over and over. */
  lemma FuzzedExactly(data: seq<Byte>, run: Option<seq<Byte>>)
    requires 0 < |data| <= 4096 && (run.Some? ==> 0 < |run.value| <= 40960000)
    ensures |Fuzzed(data, run)| == 65499 && data <= Fuzzed(data, run)
    ensures var src := if run.Some? then run.value else data;
      forall i :: |data| <= i < 65499 ==> Fuzzed(data, run)[i] == src[(i - |data|) % |src|]
  {
    var m := F.Yield(data, run);
    F.PostBytes(F.PROXY_LIMITS, data, m);
  }

  class UdpConnection {
    const rec: Connection
    var sendSockToEntityA: int
    var sendSockToEntityB: int
    var recvSockFromEntityA: int
    var recvSockFromEntityB: int
    var dynamicPorts: seq<int>

    constructor (rec: Connection)
      ensures this.rec == rec && dynamicPorts == []
      ensures sendSockToEntityA == sendSockToEntityB == recvSockFromEntityA == recvSockFromEntityB == -1
    {
      this.rec := rec;
      sendSockToEntityA, sendSockToEntityB := -1, -1;
      recvSockFromEntityA, recvSockFromEntityB := -1, -1;
      dynamicPorts := [];
    }

    method SetSockets(recvA: int, sendB: int, recvB: int, sendA: int)
      modifies this
      ensures recvSockFromEntityA == recvA && sendSockToEntityB == sendB
      ensures recvSockFromEntityB == recvB && sendSockToEntityA == sendA
      ensures dynamicPorts == old(dynamicPorts)
    {
      recvSockFromEntityA := recvA;
      sendSockToEntityB := sendB;
      recvSockFromEntityB := recvB;
      sendSockToEntityA := sendA;
    }

    /** The mutex makes each of these two one atomic step. */
    method PushDynamicPort(port: int)
      modifies this`dynamicPorts
      ensures dynamicPorts == old(dynamicPorts) + [port]
    {
      dynamicPorts := dynamicPorts + [port];
    }

    /** On an empty queue the caller's variable keeps its value. */
    method PopDynamicPort(current: int) returns (found: bool, port: int)
      modifies this`dynamicPorts
      ensures found <==> old(dynamicPorts) != []
      ensures found ==> [port] + dynamicPorts == old(dynamicPorts)
      ensures !found ==> port == current && dynamicPorts == old(dynamicPorts)
    {
      if dynamicPorts == [] {
        return false, current;
      }
      port := dynamicPorts[0];
      dynamicPorts := dynamicPorts[1..];
      found := true;
    }

    function SendSock(s: Side): int
      reads this
    {
      if s == A then sendSockToEntityA else sendSockToEntityB
    }

    function RecvSock(s: Side): int
      reads this
    {
      if s == A then recvSockFromEntityA else recvSockFromEntityB
    }

    /** The socket a thread reads. What a thread sends leaves through the one its partner
        reads, which is the one a failed recvfrom of that partner closes. */
    function ReadBy(t: M.Tid): int
      reads this
    {
      match t
      case Tid(Receiver, A) => recvSockFromEntityA
      case Tid(Receiver, B) => recvSockFromEntityB
      case Tid(Sender, A) => sendSockToEntityA
      case Tid(Sender, B) => sendSockToEntityB
    }

    /** One pass of recvThreadEntry after recvfrom returned `len` bytes; None if the socket is
        neither of the connection's receive sockets. */
    method ReceiveBody(fuzzer: F.Fuzzer, env: F.Env, recvSock: int, srcPort: int, buffer: array<Byte>, len: nat)
      returns (sending: Option<Sending>)
      requires fuzzer.lim == F.PROXY_LIMITS && buffer in env.live && 0 < len <= buffer.Length <= M.BUFFER_SIZE
      modifies this`dynamicPorts, env
      ensures env.live == old(env.live) && env.failures >= old(env.failures)
      ensures sending.Some? ==> |env.mutations| == |old(env.mutations)| + 1
      ensures sending.Some? && env.failures == old(env.failures) ==>
        sending.value.payload == Fuzzed(buffer[..len], env.mutations[|old(env.mutations)|])
      ensures sending.Some? ==>
        && |env.fuzzes| == |old(env.fuzzes)| + 1
        && IsPayload(buffer[..len], env.fuzzes[|old(env.fuzzes)|], env.failures, sending.value.payload)
      ensures sending.None? <==> recvSock != recvSockFromEntityA && recvSock != recvSockFromEntityB
      ensures sending.None? ==> dynamicPorts == old(dynamicPorts)
      ensures recvSock == recvSockFromEntityA ==>
        var pops := rec.bPort == -1 && old(dynamicPorts) != [];
        var target := if rec.bPort != -1 then rec.bPort else if pops then old(dynamicPorts)[0] else -1;
        && sending.Some? && sending.value.sock == sendSockToEntityB && sending.value.ip == rec.bIp
        && sending.value.port == target % 0x1_0000
        && dynamicPorts == (if pops then old(dynamicPorts)[1..] else old(dynamicPorts))
                           + (if rec.aPort == -1 then [srcPort] else [])
      ensures recvSock == recvSockFromEntityB != recvSockFromEntityA ==>
        var pops := rec.aPort == -1 && old(dynamicPorts) != [];
        var target := if rec.aPort != -1 then rec.aPort else if pops then old(dynamicPorts)[0] else -1;
        && sending.Some? && sending.value.sock == sendSockToEntityA && sending.value.ip == rec.aIp
        && sending.value.port == target % 0x1_0000
        && dynamicPorts == (if pops then old(dynamicPorts)[1..] else old(dynamicPorts))
                           + (if rec.bPort == -1 then [srcPort] else [])
      ensures sending.Some? ==>
        var from := if recvSock == recvSockFromEntityA then A else B;
        && sending.value.sock == SendSock(Other(from)) == ReadBy(M.Partner(M.Tid(M.Receiver, from)))
        && Performs(rec, M.Tid(M.Receiver, from), srcPort, buffer[..len],
                    old(dynamicPorts), dynamicPorts, sending.value)
    {
      var targetIp, targetPort, sendSock;
      var found;
      if recvSock == recvSockFromEntityA {
        sendSock, targetIp, targetPort := sendSockToEntityB, rec.bIp, rec.bPort;
        if targetPort == -1 {
          found, targetPort := PopDynamicPort(targetPort);
        }
        if rec.aPort == -1 {
          PushDynamicPort(srcPort);
        }
      } else if recvSock == recvSockFromEntityB {
        sendSock, targetIp, targetPort := sendSockToEntityA, rec.aIp, rec.aPort;
        if targetPort == -1 {
          found, targetPort := PopDynamicPort(targetPort);
        }
        if rec.bPort == -1 {
          PushDynamicPort(srcPort);
        }
      } else {
        return None;
      }
      var payload, m := fuzzer.ForwardPayload(env, buffer, len);
      if m.Some? {
        F.ForwardedPayload(buffer[..len], m.value);
      }
      sending := Some(Sending(sendSock, targetIp, M.WirePort(targetPort), payload));
    }

    /** One pass of sendThreadEntry after recvfrom returned `len` bytes. */
    method SendBody(fuzzer: F.Fuzzer, env: F.Env, isFromA: bool, srcPort: int, buffer: array<Byte>, len: nat)
      returns (sending: Sending)
      requires fuzzer.lim == F.PROXY_LIMITS && buffer in env.live && 0 < len <= buffer.Length <= M.BUFFER_SIZE
      modifies this`dynamicPorts, env
      ensures env.live == old(env.live) && env.failures >= old(env.failures)
      ensures |env.mutations| == |old(env.mutations)| + 1
      ensures env.failures == old(env.failures) ==>
        sending.payload == Fuzzed(buffer[..len], env.mutations[|old(env.mutations)|])
      ensures |env.fuzzes| == |old(env.fuzzes)| + 1
      ensures IsPayload(buffer[..len], env.fuzzes[|old(env.fuzzes)|], env.failures, sending.payload)
      ensures
        var port := if isFromA then rec.bPort else rec.aPort;
        var pops := port == -1 && old(dynamicPorts) != [];
        var target := if port != -1 then port else if pops then old(dynamicPorts)[0] else srcPort;
        && sending.sock == (if isFromA then recvSockFromEntityB else recvSockFromEntityA)
        && sending.ip == (if isFromA then rec.bIp else rec.aIp)
        && sending.port == target % 0x1_0000
        && dynamicPorts == if pops then old(dynamicPorts)[1..] else old(dynamicPorts)
      ensures
        var from := if isFromA then A else B;
        && sending.sock == RecvSock(Other(from)) == ReadBy(M.Partner(M.Tid(M.Sender, from)))
        && Performs(rec, M.Tid(M.Sender, from), srcPort, buffer[..len], old(dynamicPorts), dynamicPorts, sending)
    {
      var forwardSock, dstIp;
      var dstPort := -1;
      var found;
      if isFromA {
        forwardSock, dstIp := recvSockFromEntityB, rec.bIp;
        if rec.bPort == -1 {
          found, dstPort := PopDynamicPort(dstPort);
          if !found {
            dstPort := srcPort;
          }
        } else {
          dstPort := rec.bPort;
        }
      } else {
        forwardSock, dstIp := recvSockFromEntityA, rec.aIp;
        if rec.aPort == -1 {
          found, dstPort := PopDynamicPort(dstPort);
          if !found {
            dstPort := srcPort;
          }
        } else {
          dstPort := rec.aPort;
        }
      }
      var payload, m := fuzzer.ForwardPayload(env, buffer, len);
      if m.Some? {
        F.ForwardedPayload(buffer[..len], m.value);
      }
      sending := Sending(forwardSock, dstIp, M.WirePort(dstPort), payload);
    }
  }

  /** The arguments of a sendto call. */
  datatype Sending = Sending(sock: int, ip: string, port: int, payload: seq<Byte>)

  /** A pass of thread `t` that received `data` from `srcPort`: what becomes of the queue, and
      what is sent where. */
  ghost predicate Performs(c: Connection, t: M.Tid, srcPort: int, data: seq<Byte>,
                           before: seq<int>, after: seq<int>, x: Sending)
  {
    var (target, rest) := M.ChoosePort(c, t, srcPort, before);
    && after == M.StorePort(c, t, srcPort, rest)
    && x.ip == c.Ip(Other(t.from)) && x.port == M.WirePort(target)
    && F.Forwarded(data, x.payload)
  }

  /** A pass of the code is a pass of the machine: same queue, same transmission, and nothing
      else but the histories has changed. */
  lemma PassIsFourSteps(c: Connection, s: M.State, t: M.Tid, after: seq<int>, x: Sending, ok: bool)
    requires M.Total(s) && s.pc[t].Received? && (ok ==> !s.pc[M.Partner(t)].Closed?)
    requires Performs(c, t, s.pc[t].d.port, s.pc[t].d.data, s.queue, after, x)
    ensures var s', sent := M.Pass(c, s, t, x.payload, ok), M.Transmission(x.ip, x.port, x.payload, s.pc[t].d);
      && s'.queue == after
      && s' == s.(queue := after, pc := s.pc[t := M.Idle], sent := s.sent[t := s.sent[t] + [sent]],
                  outbound := if ok then s.outbound[t := s.outbound[t] + [sent]] else s.outbound,
                  pushed := s'.pushed, popped := s'.popped, starved := s'.starved)
  {
    M.PassEffect(c, s, t, x.payload, ok);
  }

  // ---------------------------------------------------------------- descriptors

  class Os {
    /** Open UDP sockets and the local port each is bound to. */
    var bound: map<int, int>
    /** How many system calls failed. */
    ghost var failures: nat

    constructor ()
      ensures bound == map[] && failures == 0
    {
      bound, failures := map[], 0;
    }

    /** socket, setsockopt and bind; any of them may fail, and then the descriptor is closed. */
    method CreateAndBindSocket(port: int) returns (sock: int)
      modifies this
      ensures sock == -1 ==> bound == old(bound) && failures == old(failures) + 1
      ensures sock != -1 ==>
        0 <= sock && sock !in old(bound) && bound == old(bound)[sock := port] && failures == old(failures)
    {
      if * {
        failures := failures + 1;
        return -1;
      }
      Pigeonhole(0, |bound.Keys| + 1, bound.Keys);
      sock :| 0 <= sock && sock !in bound.Keys;
      bound := bound[sock := port];
    }

    method GetSockName(sock: int) returns (port: Option<int>)
      modifies this`failures
      ensures port.Some? ==> sock in bound && port.value == bound[sock] && failures == old(failures)
      ensures port.None? ==> failures == old(failures) + 1
    {
      var failed: bool := *;
      if sock in bound && !failed {
        port := Some(bound[sock]);
      } else {
        port, failures := None, failures + 1;
      }
    }

    method CreateThread() returns (created: bool)
      modifies this`failures
      ensures failures == old(failures) + (if created then 0 else 1)
    {
      created := *;
      if !created {
        failures := failures + 1;
      }
    }
  }

  // ---------------------------------------------------------------- the handler

  /** The connections whose four sockets were all bound. */
  function Selected(conns: seq<Connection>, ok: seq<bool>): (r: seq<Connection>)
    requires |conns| == |ok|
  {
    if conns == [] then []
    else
      var n := |conns| - 1;
      Selected(conns[..n], ok[..n]) + (if ok[n] then [conns[n]] else [])
  }

  lemma SelectedNext(conns: seq<Connection>, i: nat, ok: seq<bool>, added: bool)
    requires i < |conns| && |ok| == i
    ensures Selected(conns[..i + 1], ok + [added]) == Selected(conns[..i], ok) + (if added then [conns[i]] else [])
    ensures Count(ok + [added]) == Count(ok) + One(added)
  {
    assert conns[..i + 1][..i] == conns[..i] && (ok + [added])[..i] == ok;
  }

  lemma {:induction false} SelectedExactly(conns: seq<Connection>, ok: seq<bool>)
    requires |conns| == |ok|
    ensures Filtered(conns, ok, Selected(conns, ok))
  {
    if conns != [] {
      var n := |conns| - 1;
      SelectedExactly(conns[..n], ok[..n]);
      FilteredNext(conns[..n], ok[..n], Selected(conns[..n], ok[..n]), conns[n], ok[n]);
      assert conns == conns[..n] + [conns[n]] && ok == ok[..n] + [ok[n]];
    }
  }

  lemma {:induction false} SelectedAll(conns: seq<Connection>, ok: seq<bool>)
    requires |conns| == |ok| && forall i :: 0 <= i < |ok| ==> ok[i]
    ensures Selected(conns, ok) == conns
  {
    if conns != [] {
      var n := |conns| - 1;
      SelectedAll(conns[..n], ok[..n]);
      assert conns == conns[..n] + [conns[n]];
    }
  }

  class UdpHandler {
    const os: Os
    var recvSockets: seq<int>
    var sendSockets: seq<int>
    var connections: seq<UdpConnection>
    var sockToConnection: map<int, UdpConnection>

    constructor (os: Os)
      ensures this.os == os && Valid() && connections == []
    {
      this.os := os;
      recvSockets, sendSockets, connections, sockToConnection := [], [], [], map[];
    }

    ghost function Records(): (r: seq<Connection>)
      reads this
    {
      seq(|connections|, i requires 0 <= i < |connections| reads this => connections[i].rec)
    }

    /** The table names `c` for `sock`, which is bound to `port`. */
    ghost predicate Holds(c: UdpConnection, sock: int, port: int)
      reads this, os`bound
    {
      && sock in sockToConnection && sockToConnection[sock] == c
      && 0 <= sock && sock in os.bound && os.bound[sock] == port
    }

    /** The sockets of one connection: four of them, each bound to the matching proxy port. */
    ghost predicate Wired(c: UdpConnection)
      reads this, os`bound, c
    {
      && Holds(c, c.recvSockFromEntityA, c.rec.aRecv) && Holds(c, c.recvSockFromEntityB, c.rec.bRecv)
      && Holds(c, c.sendSockToEntityA, c.rec.aSend) && Holds(c, c.sendSockToEntityB, c.rec.bSend)
      && |{c.recvSockFromEntityA, c.recvSockFromEntityB, c.sendSockToEntityA, c.sendSockToEntityB}| == 4
    }

    ghost predicate Listed(i: nat)
      requires i < |connections| && |recvSockets| == |sendSockets| == 2 * |connections|
      reads this, connections
    {
      var c := connections[i];
      && recvSockets[2 * i] == c.recvSockFromEntityA && recvSockets[2 * i + 1] == c.recvSockFromEntityB
      && sendSockets[2 * i] == c.sendSockToEntityA && sendSockets[2 * i + 1] == c.sendSockToEntityB
    }

    ghost predicate Valid()
      reads this, os`bound, connections
    {
      && |recvSockets| == |sendSockets| == 2 * |connections|
      && (forall i :: 0 <= i < |connections| ==> Listed(i))
      && (forall i :: 0 <= i < |connections| ==> Wired(connections[i]))
      && (forall i, j :: 0 <= i < j < |connections| ==> connections[i] != connections[j])
      && (forall s :: s in sockToConnection ==> s in os.bound)
    }

    method BuildFromConnections(conns: seq<Connection>) returns (ok: seq<bool>)
      requires Valid()
      modifies this, os
      ensures Valid() && |ok| == |conns|
      ensures old(connections) <= connections
      ensures Records() == old(Records()) + Selected(conns, ok)
      ensures os.failures == old(os.failures) ==>
        (forall i :: 0 <= i < |ok| ==> ok[i]) && Selected(conns, ok) == conns
      ensures Count(ok) <= |ok| && os.failures >= old(os.failures) + (|ok| - Count(ok))
      ensures forall i :: |old(connections)| <= i < |connections| ==>
        fresh(connections[i]) && connections[i].dynamicPorts == []
    {
      ok := [];
      ghost var first, records := connections, Records();
      for i := 0 to |conns|
        invariant Valid() && |ok| == i
        invariant first <= connections
        invariant Records() == records + Selected(conns[..i], ok)
        invariant Count(ok) <= i && os.failures >= old(os.failures) + (i - Count(ok))
        invariant forall j :: |first| <= j < |connections| ==>
          fresh(connections[j]) && connections[j].dynamicPorts == []
      {
        var added := AddConnection(conns[i]);
        SelectedNext(conns, i, ok, added);
        Associative(records, Selected(conns[..i], ok), if added then [conns[i]] else []);
        ok := ok + [added];
      }
      assert conns[..|conns|] == conns;
      if os.failures == old(os.failures) {
        CountAll(ok);
        SelectedAll(conns, ok);
      }
    }

    /** The body of the loop of buildFromConnections. */
    method AddConnection(record: Connection) returns (added: bool)
      requires Valid()
      modifies this, os
      ensures Valid()
      ensures added ==>
        && |connections| == |old(connections)| + 1 && connections[..|old(connections)|] == old(connections)
        && fresh(connections[|old(connections)|])
        && connections[|old(connections)|].dynamicPorts == []
        && Records() == old(Records()) + [record]
      ensures !added ==> connections == old(connections) && Records() == old(Records())
      ensures os.failures >= old(os.failures) && (!added ==> os.failures > old(os.failures))
    {
      var conn := new UdpConnection(record);
      var recvA, sendB, recvB, sendA := BindAll(record);
      if 0 <= recvA && 0 <= sendB && 0 <= recvB && 0 <= sendA {
        conn.SetSockets(recvA, sendB, recvB, sendA);
        Register(conn);
        added := true;
        assert Records() == old(Records()) + [record];
      } else {
        added := false;
      }
    }

    method BindAll(record: Connection) returns (recvA: int, sendB: int, recvB: int, sendA: int)
      modifies os
      ensures forall s :: s in old(os.bound) ==> s in os.bound && os.bound[s] == old(os.bound)[s]
      ensures os.failures >= old(os.failures)
      ensures os.failures == old(os.failures) ==> recvA >= 0 && sendB >= 0 && recvB >= 0 && sendA >= 0
      ensures recvA >= 0 && sendB >= 0 && recvB >= 0 && sendA >= 0 ==>
        && |{recvA, recvB, sendA, sendB}| == 4
        && (forall s :: s in {recvA, recvB, sendA, sendB} ==> s in os.bound && s !in old(os.bound))
        && os.bound[recvA] == record.aRecv && os.bound[recvB] == record.bRecv
        && os.bound[sendA] == record.aSend && os.bound[sendB] == record.bSend
    {
      recvA := os.CreateAndBindSocket(record.aRecv);
      sendB := os.CreateAndBindSocket(record.bSend);
      recvB := os.CreateAndBindSocket(record.bRecv);
      sendA := os.CreateAndBindSocket(record.aSend);
    }

    ghost predicate Unlisted(sock: int, port: int)
      reads this, os`bound
    {
      0 <= sock && sock in os.bound && os.bound[sock] == port && sock !in sockToConnection
    }

    /** Enter a connection whose sockets are set into the tables. */
    method Register(conn: UdpConnection)
      requires Valid() && conn !in connections
      requires |{conn.RecvSock(A), conn.RecvSock(B), conn.SendSock(A), conn.SendSock(B)}| == 4
      requires Unlisted(conn.recvSockFromEntityA, conn.rec.aRecv) && Unlisted(conn.recvSockFromEntityB, conn.rec.bRecv)
      requires Unlisted(conn.sendSockToEntityA, conn.rec.aSend) && Unlisted(conn.sendSockToEntityB, conn.rec.bSend)
      modifies this
      ensures Valid()
      ensures connections == old(connections) + [conn]
    {
      ghost var n := |connections|;
      var recvA, recvB := conn.recvSockFromEntityA, conn.recvSockFromEntityB;
      var sendA, sendB := conn.sendSockToEntityA, conn.sendSockToEntityB;
      sockToConnection := sockToConnection[recvA := conn][recvB := conn];
      recvSockets := recvSockets + [recvA] + [recvB];
      sockToConnection := sockToConnection[sendA := conn][sendB := conn];
      sendSockets := sendSockets + [sendA] + [sendB];
      connections := connections + [conn];
      forall i | 0 <= i < n
        ensures Wired(connections[i]) && Listed(i)
      {
        StaysListed(i);
      }
      assert Wired(connections[n]);
      assert Listed(n);
    }

    /** Additions to the tables leave what they hold of an older connection. */
    twostate lemma StaysListed(i: nat)
      requires old(Valid()) && i < |old(connections)| && unchanged(old(connections)[i]) && os.bound == old(os.bound)
      requires old(connections) <= connections && |recvSockets| == |sendSockets| == 2 * |connections|
      requires old(recvSockets) <= recvSockets && old(sendSockets) <= sendSockets
      requires forall s :: s in old(sockToConnection) ==>
        s in sockToConnection && sockToConnection[s] == old(sockToConnection)[s]
      ensures Wired(connections[i]) && Listed(i)
    {
      assert old(Wired(connections[i])) && old(Listed(i));
    }

    /** Entry k of both lists belongs to connection k / 2: even entries are A's, odd ones B's.
        For the send list that is the order in which they were appended. */
    ghost predicate Owns(k: nat)
      requires k < 2 * |connections| && |recvSockets| == |sendSockets| == 2 * |connections|
      reads this, connections
    {
      var c := connections[k / 2];
      && recvSockets[k] in sockToConnection && sockToConnection[recvSockets[k]] == c
      && recvSockets[k] == (if k % 2 == 0 then c.recvSockFromEntityA else c.recvSockFromEntityB)
      && sendSockets[k] in sockToConnection && sockToConnection[sendSockets[k]] == c
      && sendSockets[k] == (if k % 2 == 0 then c.sendSockToEntityA else c.sendSockToEntityB)
    }

    lemma EntryOwned(k: nat)
      requires Valid() && k < 2 * |connections|
      ensures Owns(k)
    {
      var i := k / 2;
      assert k == 2 * i || k == 2 * i + 1;
      assert Listed(i) && Wired(connections[i]);
    }

    /** The four sockets of a connection and the ports they are bound to. */
    lemma SocketsBound(i: nat)
      requires Valid() && i < |connections|
      ensures var c := connections[i];
        && c.recvSockFromEntityA in os.bound && os.bound[c.recvSockFromEntityA] == c.rec.aRecv
        && c.recvSockFromEntityB in os.bound && os.bound[c.recvSockFromEntityB] == c.rec.bRecv
        && c.sendSockToEntityA in os.bound && os.bound[c.sendSockToEntityA] == c.rec.aSend
        && c.sendSockToEntityB in os.bound && os.bound[c.sendSockToEntityB] == c.rec.bSend
    {
      assert Wired(connections[i]);
    }

    /** Every listed socket leads to the one connection that holds it, in the field the list
        stands for, and no socket is listed twice. */
    lemma TableIsExact()
      requires Valid()
      ensures forall k :: 0 <= k < 2 * |connections| ==> Owns(k)
      ensures forall j, k :: 0 <= j < k < 2 * |connections| ==>
        recvSockets[j] != recvSockets[k] && sendSockets[j] != sendSockets[k]
      ensures forall j, k :: 0 <= j < 2 * |connections| && 0 <= k < 2 * |connections| ==>
        recvSockets[j] != sendSockets[k]
    {
      forall k | 0 <= k < 2 * |connections| ensures Owns(k) { EntryOwned(k); }
      forall j, k | 0 <= j < 2 * |connections| && 0 <= k < 2 * |connections|
        ensures j < k ==> recvSockets[j] != recvSockets[k] && sendSockets[j] != sendSockets[k]
        ensures recvSockets[j] != sendSockets[k]
      {
        EntryOwned(j);
        EntryOwned(k);
        assert Wired(connections[j / 2]);
        if j / 2 == k / 2 && j < k {
          assert j % 2 == 0 && k % 2 == 1;
        }
      }
    }

    /** The body of the loop of startRecvThreads. The thread gets the connection that owns the
        socket it reads, in the field the list stands for. */
    method StartRecvThread(k: nat) returns (thread: Option<UdpConnection>)
      requires Valid() && k < |recvSockets|
      modifies os`failures
      ensures os.failures == old(os.failures) + Missing(thread)
      ensures thread.Some? ==> Owns(k) && thread.value == connections[k / 2]
    {
      EntryOwned(k);
      var sock := recvSockets[k];
      thread := None;
      if sock !in sockToConnection {
        assert false;
      } else {
        var created := os.CreateThread();
        if created {
          thread := Some(sockToConnection[sock]);
        }
      }
    }

    /** One thread per receive socket, unless pthread_create failed for it. */
    method StartRecvThreads() returns (threads: seq<Option<UdpConnection>>)
      requires Valid()
      modifies os`failures
      ensures |threads| == |recvSockets| && os.failures == old(os.failures) + AllMissing(threads)
      ensures forall k :: 0 <= k < |threads| && threads[k].Some? ==> Owns(k) && threads[k].value == connections[k / 2]
    {
      threads := [];
      for i := 0 to |recvSockets|
        invariant |threads| == i && os.failures == old(os.failures) + AllMissing(threads)
        invariant forall k :: 0 <= k < i && threads[k].Some? ==> Owns(k) && threads[k].value == connections[k / 2]
      {
        var thread := StartRecvThread(i);
        assert (threads + [thread])[..i] == threads;
        threads := threads + [thread];
      }
    }

    /** What startSendThreads owes entry k of the send list: a thread if its connection has a
        dynamic side, told "from A" exactly when it reads the socket that sends to A and
        getsockname worked. */
    ghost predicate Launched(k: nat, launch: Launch)
      requires k < 2 * |connections| && |sendSockets| == 2 * |connections|
      reads this, connections
    {
      var c := connections[k / 2];
      && (launch.thread.Some? <==> (c.rec.aPort == DYNAMIC || c.rec.bPort == DYNAMIC) && !launch.failed)
      && (launch.thread.Some? ==>
            && launch.thread.value.conn == c
            && (launch.thread.value.isFromA <==> sendSockets[k] == c.sendSockToEntityA && !launch.unnamed))
    }

    /** The body of the loop of startSendThreads. */
    method StartSendThread(k: nat) returns (launch: Launch)
      requires Valid() && k < |sendSockets|
      requires connections[k / 2].rec.aSend != connections[k / 2].rec.bSend
      modifies os`failures
      ensures os.failures == old(os.failures) + launch.Mishaps()
      ensures Launched(k, launch)
    {
      EntryOwned(k);
      launch := Launch(None, false, false);
      var sock := sendSockets[k];
      if sock !in sockToConnection {
        assert false;
      } else {
        var conn := sockToConnection[sock];
        assert conn == connections[k / 2] && Wired(conn);
        if conn.rec.aPort != -1 && conn.rec.bPort != -1 {
          return;
        }
        var name := os.GetSockName(sock);
        var isFromA := name.Some? && name.value == conn.rec.aSend;
        var created := os.CreateThread();
        launch := Launch(if created then Some(SendThread(conn, isFromA)) else None, !created, name.None?);
      }
    }

    method StartSendThreads() returns (launches: seq<Launch>)
      requires Valid()
      requires forall i :: 0 <= i < |connections| ==> connections[i].rec.aSend != connections[i].rec.bSend
      modifies os`failures
      ensures |launches| == |sendSockets| && os.failures == old(os.failures) + Mishaps(launches)
      ensures forall k :: 0 <= k < |launches| ==> Launched(k, launches[k])
    {
      launches := [];
      for i := 0 to |sendSockets|
        invariant |launches| == i && os.failures == old(os.failures) + Mishaps(launches)
        invariant forall k :: 0 <= k < i ==> Launched(k, launches[k])
      {
        var launch := StartSendThread(i);
        assert (launches + [launch])[..i] == launches;
        launches := launches + [launch];
      }
    }
  }

  /** What became of one send socket: its thread, and which of the two calls failed. */
  datatype Launch = Launch(thread: Option<SendThread>, failed: bool, unnamed: bool) {
    function Mishaps(): nat { (if failed then 1 else 0) + (if unnamed then 1 else 0) }
  }

  function Mishaps(launches: seq<Launch>): nat {
    if launches == [] then 0 else Mishaps(launches[..|launches| - 1]) + launches[|launches| - 1].Mishaps()
  }

  datatype SendThread = SendThread(conn: UdpConnection, isFromA: bool)

  lemma {:induction false} NoMishap(launches: seq<Launch>)
    ensures Mishaps(launches) == 0 <==> forall k :: 0 <= k < |launches| ==> launches[k].Mishaps() == 0
  {
    if launches != [] {
      NoMishap(launches[..|launches| - 1]);
    }
  }
}
