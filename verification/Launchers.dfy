/** The launchers' own code, undisturbed: the loops of luncher/client/src/Client.cpp over
    processes and entities, and what luncher/server/src/Server.cpp does while it holds the
    notification mutex. They are tied to the steps of `RestartProtocol`, and the orders they
    exchange to the bytes of `Framing`. */
module Launchers {
  import opened Base
  import P = RestartProtocol
  import W = Framing

  // ---------------------------------------------------------------- orders as bytes

  const START_BYTES: seq<Byte> := [83, 84, 65, 82, 84]               // sent with strlen
  const RESTART_BYTES: seq<Byte> := [82, 69, 83, 84, 65, 82, 84, 0]  // sent with sizeof

  /** strncmp(a, b, n) == 0 */
  predicate StrnEqual(a: seq<Byte>, b: seq<Byte>, n: nat)
    requires n <= |a| && n <= |b|
  {
    n == 0 || (a[0] == b[0] && (a[0] == 0 || StrnEqual(a[1..], b[1..], n - 1)))
  }

  /** How multiplex_message understands its buffer. */
  function OrderOf(buffer: seq<Byte>): (r: Option<P.Order>)
    requires |buffer| >= 8
  {
    if StrnEqual(buffer, START_BYTES + [0], 6) then Some(P.Start)
    else if StrnEqual(buffer, RESTART_BYTES, 8) then Some(P.Restart)
    else None
  }

  function BytesOf(order: P.Order): (r: seq<Byte>) {
    if order == P.Start then START_BYTES else RESTART_BYTES
  }

  /** In a buffer cleared beforehand each order is understood as it was meant, although only
      one of the two is sent with its terminating zero. */
  lemma OrderRoundTrip(order: P.Order, rest: seq<Byte>)
    requires |rest| >= 3 && forall i :: 0 <= i < |rest| ==> rest[i] == 0
    ensures OrderOf(BytesOf(order) + rest) == Some(order)
  {
    var b := BytesOf(order) + rest;
    if order == P.Start {
      SameStrings(b, START_BYTES + [0], 6);
    } else {
      assert b[0] != (START_BYTES + [0])[0];
      SameStrings(b, RESTART_BYTES, 8);
    }
  }

  /** The bytes are those of the two words, RESTART with its terminating zero. */
  lemma BytesAreWords()
    ensures |START_BYTES| == |"START"| && forall i :: 0 <= i < 5 ==> START_BYTES[i] == "START"[i] as int
    ensures |RESTART_BYTES| == |"RESTART"| + 1 && RESTART_BYTES[7] == 0
    ensures forall i :: 0 <= i < 7 ==> RESTART_BYTES[i] == "RESTART"[i] as int
  {
  }

  /** Nothing but the word itself, with a zero after it, is taken for an order. */
  lemma OrderOfExactly(buffer: seq<Byte>)
    requires |buffer| >= 8
    ensures OrderOf(buffer) == Some(P.Start) <==> buffer[..6] == START_BYTES + [0]
    ensures OrderOf(buffer) == Some(P.Restart) <==> buffer[..8] == RESTART_BYTES
  {
    StrnExactly(buffer, START_BYTES + [0], 6);
    StrnExactly(buffer, RESTART_BYTES, 8);
    assert buffer[..6][0] == buffer[..8][0] == buffer[0];
  }

  lemma {:induction false} StrnExactly(a: seq<Byte>, b: seq<Byte>, n: nat)
    requires n <= |a| && n <= |b| && forall i :: 0 <= i < n - 1 ==> b[i] != 0
    ensures StrnEqual(a, b, n) <==> a[..n] == b[..n]
  {
    if n > 0 {
      StrnExactly(a[1..], b[1..], n - 1);
      assert a[..n] == [a[0]] + a[1..][..n - 1] && b[..n] == [b[0]] + b[1..][..n - 1];
      assert a[..n][0] == a[0] && b[..n][0] == b[0];
    }
  }

  /** What recv_message leaves in a buffer cleared beforehand. */
  function Cleared(msg: seq<Byte>): (r: seq<Byte>)
    ensures |r| >= W.MAX_MSG_SIZE
  {
    if |msg| >= W.MAX_MSG_SIZE then msg else msg + seq(W.MAX_MSG_SIZE - |msg|, _ => 0)
  }

  lemma ClearedOrder(order: P.Order)
    ensures |BytesOf(order)| <= 8 && OrderOf(Cleared(BytesOf(order))) == Some(order)
  {
    OrderRoundTrip(order, seq(W.MAX_MSG_SIZE - |BytesOf(order)|, _ => 0));
  }

  function Sent(orders: seq<P.Order>): (r: seq<seq<Byte>>) {
    seq(|orders|, i requires 0 <= i < |orders| => BytesOf(orders[i]))
  }

  /** A list of orders, framed, arrives as the same list of orders. */
  lemma OrdersArrive(orders: seq<P.Order>, rest: seq<Byte>)
    ensures W.ParseMany(W.Frames(Sent(orders)) + rest, |orders|) == W.Messages(Sent(orders), rest)
    ensures forall i :: 0 <= i < |orders| ==> OrderOf(Cleared(Sent(orders)[i])) == Some(orders[i])
  {
    forall i | 0 <= i < |orders|
      ensures |Sent(orders)[i]| <= 8 && OrderOf(Cleared(Sent(orders)[i])) == Some(orders[i])
    {
      ClearedOrder(orders[i]);
    }
    W.FramesRoundTrip(Sent(orders), rest);
  }

  lemma {:induction false} SameStrings(a: seq<Byte>, b: seq<Byte>, n: nat)
    requires n <= |a| && n <= |b| && forall i :: 0 <= i < n ==> a[i] == b[i]
    ensures StrnEqual(a, b, n)
  {
    if n > 0 {
      SameStrings(a[1..], b[1..], n - 1);
    }
  }

  // ---------------------------------------------------------------- the client launcher

  /** What fork, kill and the monitor threads change. */
  class Kernel {
    var launched: map<P.Pid, P.Proc>
    var alive: set<P.Pid>
    var signalled: set<P.Pid>
    var watched: set<P.Pid>
    /** How many times fork failed. */
    ghost var failures: nat

    constructor ()
      ensures launched == map[] && alive == signalled == watched == {} && failures == 0
    {
      launched, alive, signalled, watched, failures := map[], {}, {}, {}, 0;
    }

    method Kill(pid: P.Pid)
      modifies this`signalled
      ensures signalled == if pid in alive then old(signalled) + {pid} else old(signalled)
    {
      if pid in alive {
        signalled := signalled + {pid};
      }
    }

    method Launch(entity: nat, index: nat) returns (pid: Option<P.Pid>)
      modifies this`launched, this`alive, this`failures
      ensures pid.None? ==> launched == old(launched) && alive == old(alive) && failures == old(failures) + 1
      ensures pid.Some? ==>
        && failures == old(failures) && pid.value !in old(launched)
        && launched == old(launched)[pid.value := P.Proc(pid.value, entity, index)]
        && alive == old(alive) + {pid.value}
    {
      var p: P.Pid := *;
      if p in launched {
        failures := failures + 1;
        return None;
      }
      launched := launched[p := P.Proc(p, entity, index)];
      alive := alive + {p};
      pid := Some(p);
    }

    method StartMonitor(pid: P.Pid)
      modifies this`watched
      ensures watched == old(watched) + {pid}
    {
      watched := watched + {pid};
    }
  }

  /** stop_processes and start_entities as a whole. */
  function StopAll(c: P.Client, i: nat): (r: P.Client)
    requires i <= |c.processList|
    decreases |c.processList| - i
  {
    if i == |c.processList| then c.(processList := []) else StopAll(P.StopOne(c, i), i + 1)
  }

  function StartAll(c: P.Client, spawned: seq<Option<P.Pid>>): (r: P.Client) {
    if spawned == [] then c
    else
      var n := |spawned| - 1;
      P.StartOne(StartAll(c, spawned[..n]), n, spawned[n])
  }

  class ClientLauncher {
    const kernel: Kernel
    const entities: nat
    var processList: seq<P.Proc>
    var index: nat

    constructor (kernel: Kernel, entities: nat)
      ensures this.kernel == kernel && this.entities == entities && processList == [] && index == 0
    {
      this.kernel, this.entities := kernel, entities;
      processList, index := [], 0;
    }

    ghost function View(): (c: P.Client)
      reads this, kernel
    {
      P.NewClient(entities, 0).(
        inbox := [], gen := index, processList := processList, launched := kernel.launched,
        alive := kernel.alive, signalled := kernel.signalled, watched := kernel.watched)
    }

    method StopProcesses()
      modifies this`processList, kernel`signalled
      ensures View() == StopAll(old(View()), 0)
    {
      for i := 0 to |processList|
        invariant processList == old(processList)
        invariant StopAll(View(), i) == StopAll(old(View()), 0)
      {
        ghost var before := View();
        kernel.Kill(processList[i].pid);
        assert View() == P.StopOne(before, i);
      }
      processList := [];
    }

    method StartEntities() returns (ghost spawned: seq<Option<P.Pid>>)
      modifies this, kernel
      ensures |spawned| == entities && kernel.failures == old(kernel.failures) + AllMissing(spawned)
      ensures View() == StartAll(old(View()).(gen := old(index) + 1), spawned)
    {
      index := index + 1;
      spawned := [];
      ghost var start := View();
      for j := 0 to entities
        invariant index == old(index) + 1 && |spawned| == j
        invariant View() == StartAll(start, spawned)
        invariant kernel.failures == old(kernel.failures) + AllMissing(spawned)
      {
        ghost var before := View();
        var pid := kernel.Launch(j, index);
        if pid.Some? {
          processList := processList + [P.Proc(pid.value, j, index)];
          kernel.StartMonitor(pid.value);
        }
        assert View() == P.StartOne(before, j, pid);
        assert (spawned + [pid])[..j] == spawned;
        spawned := spawned + [pid];
      }
    }

    method MultiplexMessage(buffer: array<Byte>) returns (ghost spawned: seq<Option<P.Pid>>)
      requires buffer.Length >= 8
      modifies this, kernel
      ensures OrderOf(buffer[..]).Some? ==> |spawned| == entities
      ensures kernel.failures == old(kernel.failures) + AllMissing(spawned)
      ensures OrderOf(buffer[..]) == Some(P.Start) ==>
        View() == StartAll(old(View()).(gen := old(index) + 1), spawned)
      ensures OrderOf(buffer[..]) == Some(P.Restart) ==>
        View() == StartAll(StopAll(old(View()), 0).(gen := old(index) + 1), spawned)
      ensures OrderOf(buffer[..]).None? ==> View() == old(View())
    {
      spawned := [];
      var order := OrderOf(buffer[..]);
      if order == Some(P.Start) {
        spawned := StartEntities();
      } else if order == Some(P.Restart) {
        StopProcesses();
        StopAllReaches(old(View()), 0);
        spawned := StartEntities();
      }
    }
  }

  function Reached(c: P.Client, i: nat): (r: set<P.Pid>) {
    set m | i <= m < |c.processList| && c.processList[m].pid in c.alive :: c.processList[m].pid
  }

  /** Stopping reaches every listed process that is alive, no other, empties the list, and
      changes nothing else. */
  lemma {:induction false} StopAllReaches(c: P.Client, i: nat)
    requires i <= |c.processList|
    ensures StopAll(c, i) == c.(processList := [], signalled := c.signalled + Reached(c, i))
    decreases |c.processList| - i
  {
    if i < |c.processList| {
      StopAllReaches(P.StopOne(c, i), i + 1);
      assert P.StopOne(c, i).signalled + Reached(P.StopOne(c, i), i + 1) == c.signalled + Reached(c, i);
    }
  }

  // The methods are the machine's client steps with nothing in between.

  function Steps(c: P.Client, spawned: seq<Option<P.Pid>>): (r: P.Client)
    requires !c.pc.Ready?
    decreases |spawned|
  {
    if spawned == [] then c
    else
      var c' := P.ApplyClient(c, spawned[0]);
      if c'.pc.Ready? then c' else Steps(c', spawned[1..])
  }

  lemma {:induction false} StopSteps(c: P.Client, idle: seq<Option<P.Pid>>)
    requires c.pc.Stopping? && c.pc.i <= |c.processList| && |idle| == |c.processList| - c.pc.i + 1
    ensures Steps(c, idle) == StopAll(c, c.pc.i).(gen := c.gen + 1, pc := P.Starting(0))
    decreases |c.processList| - c.pc.i
  {
    var i := c.pc.i;
    var c' := P.ApplyClient(c, idle[0]);
    if i < |c.processList| {
      StopSteps(c', idle[1..]);
      StopAllReaches(c', i + 1);
      StopAllReaches(P.StopOne(c, i), i + 1);
    } else {
      assert Steps(c', idle[1..]) == c';
    }
  }

  lemma {:induction false} StartKeeps(c: P.Client, spawned: seq<Option<P.Pid>>)
    ensures var r := StartAll(c, spawned);
      r == c.(processList := r.processList, launched := r.launched, alive := r.alive, watched := r.watched)
  {
    if spawned != [] {
      StartKeeps(c, spawned[..|spawned| - 1]);
    }
  }

  lemma {:induction false} StartSteps(c: P.Client, spawned: seq<Option<P.Pid>>, k: nat, idle: Option<P.Pid>)
    requires k <= |spawned| == c.entities
    ensures Steps(StartAll(c, spawned[..k]).(pc := P.Starting(k)), spawned[k..] + [idle])
         == StartAll(c, spawned).(pc := P.Ready)
    decreases |spawned| - k
  {
    var from := StartAll(c, spawned[..k]).(pc := P.Starting(k));
    var todo := spawned[k..] + [idle];
    StartKeeps(c, spawned[..k]);
    if k < |spawned| {
      assert spawned[..k + 1][..k] == spawned[..k];
      assert P.ApplyClient(from, todo[0]) == StartAll(c, spawned[..k + 1]).(pc := P.Starting(k + 1));
      assert todo[1..] == spawned[k + 1..] + [idle];
      StartSteps(c, spawned, k + 1, idle);
    } else {
      assert spawned[..k] == spawned;
    }
  }

  lemma {:induction false} StepsAppend(c: P.Client, a: seq<Option<P.Pid>>, b: seq<Option<P.Pid>>)
    requires !c.pc.Ready? && !Steps(c, a).pc.Ready?
    ensures Steps(c, a + b) == Steps(Steps(c, a), b)
    decreases |a|
  {
    if a == [] {
      assert a + b == b;
    } else {
      StepsAppend(P.ApplyClient(c, a[0]), a[1..], b);
      assert (a + b)[1..] == a[1..] + b;
    }
  }

  /** A RESTART handled without interruption: the machine's steps, from the first process to
      stop to the last entity to start, end where MultiplexMessage does. */
  lemma RestartSteps(c: P.Client, idle: seq<Option<P.Pid>>, spawned: seq<Option<P.Pid>>)
    requires c.pc == P.Stopping(0) && |idle| == |c.processList| + 1 && |spawned| == c.entities
    ensures Steps(c, idle + (spawned + [None]))
         == StartAll(StopAll(c, 0).(gen := c.gen + 1), spawned).(pc := P.Ready)
  {
    var stopped := StopAll(c, 0).(gen := c.gen + 1);
    StopSteps(c, idle);
    StepsAppend(c, idle, spawned + [None]);
    StopAllReaches(c, 0);
    assert StartAll(stopped, spawned[..0]) == stopped;
    assert spawned[0..] + [None] == spawned + [None];
    StartSteps(stopped, spawned, 0, None);
  }

  /** Starting lists, watches and starts exactly one process per entity that could be
      launched, in the order of the entities. */
  lemma {:induction false} StartAllLaunches(c: P.Client, spawned: seq<Option<P.Pid>>)
    ensures var r := StartAll(c, spawned);
      && c.processList <= r.processList
      && (forall p :: p in r.processList[|c.processList|..] <==> LaunchedAs(c.gen, spawned, p))
      && (forall l, m :: |c.processList| <= l < m < |r.processList| ==>
            r.processList[l].entity < r.processList[m].entity)
      && r.alive == c.alive + Spawned(spawned) && r.watched == c.watched + Spawned(spawned)
  {
    if spawned != [] {
      var n := |spawned| - 1;
      var front := StartAll(c, spawned[..n]);
      StartAllLaunches(c, spawned[..n]);
      StartKeeps(c, spawned[..n]);
      assert Spawned(spawned) == Spawned(spawned[..n]) + if spawned[n].Some? then {spawned[n].value} else {} by {
        assert spawned == spawned[..n] + [spawned[n]];
      }
      var added := if spawned[n].Some? then [P.Proc(spawned[n].value, n, c.gen)] else [];
      assert StartAll(c, spawned).processList == front.processList + added;
      assert (front.processList + added)[|c.processList|..] == front.processList[|c.processList|..] + added;
      forall p ensures LaunchedAs(c.gen, spawned, p) <==> LaunchedAs(c.gen, spawned[..n], p) || p in added { }
      forall m | |c.processList| <= m < |front.processList| ensures front.processList[m].entity < n {
        assert front.processList[m] in front.processList[|c.processList|..];
      }
    }
  }

  ghost predicate LaunchedAs(gen: nat, spawned: seq<Option<P.Pid>>, p: P.Proc) {
    p.entity < |spawned| && spawned[p.entity] == Some(p.pid) && p.gen == gen
  }

  function Spawned(spawned: seq<Option<P.Pid>>): (r: set<P.Pid>) {
    set x | x in spawned && x.Some? :: x.value
  }

  // ---------------------------------------------------------------- the server launcher

  /** A round as a whole: the main loop's steps from StoppingProxy to Lowering. */
  function RoundOf(s: P.State, launched: bool): (r: P.State) {
    s.(clients := P.AllOrdered(s.clients, |s.clients|), proxyUp := launched, message := "", notification := false,
       log := s.log + [P.RoundEnded], main := P.Unlocking)
  }

  function MainSteps(s: P.State, launched: bool, n: nat): (r: P.State)
    decreases n
  {
    if n == 0 then s else MainSteps(P.ApplyMain(s, launched), launched, n - 1)
  }

  lemma {:induction false} SendSteps(s: P.State, cs: seq<P.Client>, launched: bool, i: nat)
    requires i <= |cs| && s.main == P.Sending(i, |cs|) && s.clients == P.AllOrdered(cs, i)
    ensures MainSteps(s, launched, |cs| - i + 3)
         == s.(clients := P.AllOrdered(cs, |cs|), message := "", notification := false,
               log := s.log + [P.RoundEnded], main := P.Unlocking)
    decreases |cs| - i
  {
    var s1 := P.ApplyMain(s, launched);
    if i < |cs| {
      assert s1.clients == P.AllOrdered(cs, i + 1);
      SendSteps(s1, cs, launched, i + 1);
    } else {
      var s2 := P.ApplyMain(s1, launched);
      var s3 := P.ApplyMain(s2, launched);
      assert MainSteps(s, launched, 3) == MainSteps(s1, launched, 2) == MainSteps(s2, launched, 1)
          == MainSteps(s3, launched, 0);
    }
  }

  /** These are the machine's steps, n + 5 of them for n clients. */
  lemma RoundSteps(s: P.State, launched: bool)
    requires s.main == P.StoppingProxy && s.proxyUp
    ensures MainSteps(s, launched, |s.clients| + 5) == RoundOf(s, launched)
  {
    var s2 := P.ApplyMain(P.ApplyMain(s, launched), launched);
    assert P.AllOrdered(s.clients, 0) == s.clients;
    SendSteps(s2, s.clients, launched, 0);
    assert MainSteps(s, launched, |s.clients| + 5)
        == MainSteps(P.ApplyMain(s, launched), launched, |s.clients| + 4)
        == MainSteps(s2, launched, |s.clients| + 3);
  }

  lemma OneMoreOrder(orders: seq<P.Order>)
    ensures W.Frames(Sent(orders + [P.Restart])) == W.Frames(Sent(orders)) + W.Frame(RESTART_BYTES)
  {
    assert Sent(orders + [P.Restart]) == Sent(orders) + [RESTART_BYTES];
    W.FramesAppend(Sent(orders), RESTART_BYTES);
  }

  class ServerLauncher {
    const kernel: Kernel
    var proxyPid: Option<P.Pid>
    var notification: bool
    var notificationMessage: string
    var clients: seq<W.Stream>

    constructor (kernel: Kernel)
      ensures this.kernel == kernel && proxyPid == None
      ensures !notification && notificationMessage == "" && clients == []
    {
      this.kernel, proxyPid := kernel, None;
      notification, notificationMessage, clients := false, "", [];
    }

    /** The launcher is as the machine's state `s` says; client k's orders are on its stream
        after heads[k], such as its address. */
    ghost predicate Represents(s: P.State, heads: seq<seq<Byte>>)
      reads this, clients
    {
      && notification == s.notification && notificationMessage == s.message && (proxyPid.Some? <==> s.proxyUp)
      && |clients| == |s.clients| == |heads|
      && forall k :: 0 <= k < |clients| ==> clients[k].data == heads[k] + W.Frames(Sent(s.clients[k].inbox))
    }

    /** The critical section of handle_client_connection after a CRASH: the machine's steps
        Naming and Raising. */
    method RecordCrash(ghost s: P.State, ghost heads: seq<seq<Byte>>, ghost k: nat)
      requires Represents(s, heads) && k < |s.handlers| == |s.clients| && s.handlers[k] == P.Naming
      modifies this`notification, this`notificationMessage
      ensures Represents(P.ApplyHandler(P.ApplyHandler(s, k), k), heads)
      ensures P.ApplyHandler(P.ApplyHandler(s, k), k).handlers[k] == P.Releasing
      ensures notification && notificationMessage == "RESTART"
    {
      notificationMessage := P.RESTART;
      notification := true;
    }

    /** A new client gets START as its first order; the address that precedes it is a message
        of its own. */
    method Greet(stream: W.Stream, ip: array<Byte>) returns (sent: bool)
      requires ip.Length == 64 && !stream.broken
      modifies stream
      ensures sent ==> stream.data == old(stream.data) + W.Frame(ip[..]) + W.Frame(START_BYTES) && !stream.broken
    {
      sent := stream.SendMessage(ip, 64);
      if sent {
        assert ip[..64] == ip[..];
        var start := new Byte[5](i requires 0 <= i < 5 => START_BYTES[i]);
        assert start[..5] == START_BYTES;
        sent := stream.SendMessage(start, 5);
      }
    }

    /** The body of the main loop once the flag was seen: the proxy is killed and relaunched,
        RESTART goes out to every listed client exactly once, and flag and message are
        cleared. False if the process ends: because a send failed, or because an earlier
        launch of the proxy had failed and there is no pid to stop. If `s` is the machine's
        state, this is the round it goes through. */
    method Round(ghost s: P.State, ghost heads: seq<seq<Byte>>) returns (running: bool)
      requires Represents(s, heads) && s.main == P.StoppingProxy
      requires notification && notificationMessage == P.RESTART
      requires forall k, l :: 0 <= k < l < |clients| ==> clients[k] != clients[l]
      requires forall k :: 0 <= k < |clients| ==> !clients[k].broken
      modifies this`proxyPid, this`notification, this`notificationMessage, kernel, clients
      ensures !running ==> old(proxyPid).None? || exists k :: 0 <= k < |clients| && clients[k].broken
      ensures running ==>
        && old(proxyPid).Some?
        && (old(proxyPid).value in old(kernel.alive) ==> old(proxyPid).value in kernel.signalled)
        && (proxyPid.Some? ==> proxyPid.value in kernel.launched && proxyPid.value !in old(kernel.launched))
        && (proxyPid.None? ==> kernel.failures > old(kernel.failures))
        && !notification && notificationMessage == ""
        && forall k :: 0 <= k < |clients| ==>
             clients[k].data == old(clients[k].data) + W.Frame(RESTART_BYTES) && !clients[k].broken
      ensures running ==> s.proxyUp && Represents(RoundOf(s, proxyPid.Some?), heads)
    {
      if proxyPid.None? {
        return false;
      }
      kernel.Kill(proxyPid.value);
      proxyPid := kernel.Launch(0, 0);
      var message := new Byte[8](i requires 0 <= i < 8 => RESTART_BYTES[i]);
      assert message[..8] == RESTART_BYTES;
      running := SendToAll(message, 8);
      if running {
        notificationMessage := "";
        notification := false;
        AfterRound(s, heads);
      }
    }

    lemma AfterRound(s: P.State, heads: seq<seq<Byte>>)
      requires |clients| == |s.clients| == |heads| && !notification && notificationMessage == ""
      requires forall k :: 0 <= k < |clients| ==>
        clients[k].data == heads[k] + W.Frames(Sent(s.clients[k].inbox)) + W.Frame(RESTART_BYTES)
      ensures Represents(RoundOf(s, proxyPid.Some?), heads)
    {
      forall k | 0 <= k < |clients|
        ensures clients[k].data == heads[k] + W.Frames(Sent(s.clients[k].inbox + [P.Restart]))
      {
        OneMoreOrder(s.clients[k].inbox);
        Associative(heads[k], W.Frames(Sent(s.clients[k].inbox)), W.Frame(RESTART_BYTES));
      }
    }

    method SendToAll(message: array<Byte>, len: nat) returns (running: bool)
      requires len <= message.Length && len < W.SIZE_T
      requires forall k, l :: 0 <= k < l < |clients| ==> clients[k] != clients[l]
      requires forall k :: 0 <= k < |clients| ==> !clients[k].broken
      modifies clients
      ensures !running ==> exists k :: 0 <= k < |clients| && clients[k].broken
      ensures running ==> forall k :: 0 <= k < |clients| ==>
        clients[k].data == old(clients[k].data) + W.Frame(message[..len]) && !clients[k].broken
    {
      ghost var frame := W.Frame(message[..len]);
      for i := 0 to |clients|
        invariant frame == W.Frame(message[..len])
        invariant forall k :: 0 <= k < i ==> clients[k].data == old(clients[k].data) + frame && !clients[k].broken
        invariant forall k :: i <= k < |clients| ==> clients[k].data == old(clients[k].data) && !clients[k].broken
      {
        var sent := clients[i].SendMessage(message, len);
        if !sent {
          return false;
        }
      }
      running := true;
    }
  }
}
