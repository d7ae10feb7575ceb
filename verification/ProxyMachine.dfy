/** One UDP connection of the proxy as a state machine: its receive and send threads
    (proxy/src/UDPHandler.cpp), the queue of dynamic ports they share
    (proxy/inc/UDPConnection.hpp), and the network and the two endpoints around them.

    Everything a thread does between two accesses to shared state is one atomic step, so a
    run is one interleaving. The two sides are symmetric: the thread reading the socket
    "recv from A" is `Tid(Receiver, A)`, and the one reading "send to A", which carries
    A's answers to forwarded packets, is `Tid(Sender, A)`; both forward to B. The code never
    looks at the source address of a datagram, so whatever arrives at such a socket counts as
    sent by A. */
module ProxyMachine {
  import opened Base
  import opened Topology
  import F = FuzzerCore

  datatype Role = Receiver | Sender
  datatype Tid = Tid(role: Role, from: Side)

  const BUFFER_SIZE: nat := 4096

  /** Send threads are only started for a connection with a dynamic side. */
  predicate Runs(cfg: Connection, t: Tid) { t.role == Receiver || cfg.Dynamic(A) || cfg.Dynamic(B) }

  /** htons on an int: only the low sixteen bits reach the wire. */
  function WirePort(p: int): nat { p % 0x1_0000 }

  /** A datagram an endpoint sends: its source port, its bytes, and a label that stands for
      the request number an application would put in them. */
  datatype Datagram = Datagram(port: int, data: seq<Byte>, tag: nat)

  /** A datagram the proxy sends, and the received datagram it stems from. */
  datatype Transmission = Transmission(ip: string, port: int, data: seq<Byte>, of: Datagram)

  /** recvfrom with a 4096-byte buffer drops the rest of a longer datagram. */
  function Truncated(d: Datagram): Datagram {
    if |d.data| > BUFFER_SIZE then d.(data := d.data[..BUFFER_SIZE]) else d
  }

  datatype Pc =
    | Idle
    | Received(d: Datagram)
    | Targeted(d: Datagram, target: int)
    | Ready(d: Datagram, target: int)
    | Fuzzed(d: Datagram, target: int, payload: seq<Byte>)
    | Closed

  datatype State = State(
    queue: seq<int>,
    pc: map<Tid, Pc>,
    inbound: map<Tid, seq<Datagram>>,       // on the way to the thread's socket
    outbound: map<Tid, seq<Transmission>>,  // sent by the thread, on the way to its target
    // histories
    pushed: seq<Datagram>,                  // datagrams whose source port was stored
    popped: seq<int>,                       // ports taken
    starved: nat,                           // pops that found the queue empty
    emitted: map<Side, seq<Datagram>>,      // what each endpoint sent
    delivered: map<Tid, seq<nat>>,          // labels of what reached the target, per thread
    sent: map<Tid, seq<Transmission>>)      // sendto calls, per thread

  datatype Action =
    | Emit(to: Tid, d: Datagram)
    | LoseIn(t: Tid, i: nat)
    | Receive(t: Tid, i: nat)
    | Fail(t: Tid)
    | Choose(t: Tid)
    | Store(t: Tid)
    | Mutate(t: Tid, payload: seq<Byte>)
    | Transmit(t: Tid, ok: bool)
    | LoseOut(t: Tid, i: nat)
    | Deliver(t: Tid, i: nat)

  const THREADS := {Tid(Receiver, A), Tid(Receiver, B), Tid(Sender, A), Tid(Sender, B)}
  const SIDES := {A, B}

  lemma Enumerated()
    ensures forall t: Tid :: t in THREADS
    ensures forall e: Side :: e in SIDES
  {
    forall t: Tid ensures t in THREADS {
      match t { case Tid(Receiver, A) => case Tid(Receiver, B) => case Tid(Sender, A) => case Tid(Sender, B) => }
    }
    forall e: Side ensures e in SIDES {
      match e { case A => case B => }
    }
  }

  function PerThread<T>(v: T): (m: map<Tid, T>)
    ensures forall t: Tid :: t in m && m[t] == v
  {
    Enumerated();
    map t | t in THREADS :: v
  }

  function PerSide<T>(v: T): (m: map<Side, T>)
    ensures forall e: Side :: e in m && m[e] == v
  {
    Enumerated();
    map e | e in SIDES :: v
  }

  function Init(): (s: State)
    ensures Total(s)
  {
    State([], PerThread(Idle), PerThread([]), PerThread([]),
          [], [], 0, PerSide([]), PerThread([]), PerThread([]))
  }

  ghost predicate Total(s: State) {
    && (forall t: Tid :: t in s.pc) && (forall t: Tid :: t in s.inbound)
    && (forall t: Tid :: t in s.outbound) && (forall t: Tid :: t in s.delivered)
    && (forall t: Tid :: t in s.sent) && (forall e: Side :: e in s.emitted)
  }

  // ---------------------------------------------------------------- the atomic steps

  /** The thread whose socket `t` sends through. */
  function Partner(t: Tid): Tid {
    Tid(if t.role == Receiver then Sender else Receiver, Other(t.from))
  }

  /** The destination port, and the queue afterwards. On an empty queue a receive thread
      keeps -1 while a send thread answers to the source port. */
  function ChoosePort(cfg: Connection, t: Tid, src: int, queue: seq<int>): (r: (int, seq<int>)) {
    if !cfg.Dynamic(Other(t.from)) then (cfg.Port(Other(t.from)), queue)
    else if queue != [] then (queue[0], queue[1..])
    else (if t.role == Receiver then DYNAMIC else src, queue)
  }

  /** Only receive threads store the source port. */
  function StorePort(cfg: Connection, t: Tid, src: int, queue: seq<int>): (r: seq<int>) {
    if Stores(cfg, t) then queue + [src] else queue
  }

  predicate Stores(cfg: Connection, t: Tid) {
    t.role == Receiver && cfg.Dynamic(t.from)
  }

  function RemoveAt<T>(s: seq<T>, i: nat): seq<T>
    requires i < |s|
  {
    s[..i] + s[i + 1..]
  }

  ghost predicate Enabled(cfg: Connection, s: State, a: Action)
    requires Total(s)
  {
    match a
    case Emit(t, d) => 0 <= d.port < 0x1_0000
    case LoseIn(t, i) => i < |s.inbound[t]|
    case Receive(t, i) => Runs(cfg, t) && s.pc[t].Idle? && i < |s.inbound[t]|
    case Fail(t) => Runs(cfg, t) && s.pc[t].Idle?
    case Choose(t) => s.pc[t].Received?
    case Store(t) => s.pc[t].Targeted?
    case Mutate(t, payload) => s.pc[t].Ready? && F.Forwarded(s.pc[t].d.data, payload)
    case Transmit(t, ok) => s.pc[t].Fuzzed? && (ok ==> !s.pc[Partner(t)].Closed?)
    case LoseOut(t, i) => i < |s.outbound[t]|
    case Deliver(t, i) => i < |s.outbound[t]|
  }

  /** recvfrom; a result of zero bytes ends the thread and closes its socket. */
  function AfterReceive(d: Datagram): Pc {
    if |d.data| == 0 then Closed else Received(Truncated(d))
  }

  ghost function ApplyChoose(cfg: Connection, s: State, t: Tid): State
    requires Total(s) && s.pc[t].Received?
  {
    var d := s.pc[t].d;
    var (target, rest) := ChoosePort(cfg, t, d.port, s.queue);
    var s' := s.(queue := rest, pc := s.pc[t := Targeted(d, target)]);
    if !cfg.Dynamic(Other(t.from)) then s'
    else if s.queue == [] then s'.(starved := s.starved + 1)
    else s'.(popped := s.popped + [s.queue[0]])
  }

  ghost function ApplyStore(cfg: Connection, s: State, t: Tid): State
    requires Total(s) && s.pc[t].Targeted?
  {
    var Targeted(d, target) := s.pc[t];
    s.(queue := StorePort(cfg, t, d.port, s.queue),
       pushed := if Stores(cfg, t) then s.pushed + [d] else s.pushed,
       pc := s.pc[t := Ready(d, target)])
  }

  ghost function ApplyTransmit(cfg: Connection, s: State, t: Tid, ok: bool): State
    requires Total(s) && s.pc[t].Fuzzed?
  {
    var Fuzzed(d, target, payload) := s.pc[t];
    var x := Transmission(cfg.Ip(Other(t.from)), WirePort(target), payload, d);
    s.(pc := s.pc[t := Idle],
       sent := s.sent[t := s.sent[t] + [x]],
       outbound := if ok then s.outbound[t := s.outbound[t] + [x]] else s.outbound)
  }

  ghost function Apply(cfg: Connection, s: State, a: Action): (s': State)
    requires Total(s) && Enabled(cfg, s, a)
    ensures Total(s')
  {
    match a
    case Emit(t, d) =>
      s.(inbound := s.inbound[t := s.inbound[t] + [d]],
         emitted := s.emitted[t.from := s.emitted[t.from] + [d]])
    case LoseIn(t, i) =>
      s.(inbound := s.inbound[t := RemoveAt(s.inbound[t], i)])
    case Receive(t, i) =>
      s.(inbound := s.inbound[t := RemoveAt(s.inbound[t], i)],
         pc := s.pc[t := AfterReceive(s.inbound[t][i])])
    case Fail(t) =>
      s.(pc := s.pc[t := Closed])
    case Choose(t) => ApplyChoose(cfg, s, t)
    case Store(t) => ApplyStore(cfg, s, t)
    case Mutate(t, payload) =>
      s.(pc := s.pc[t := Fuzzed(s.pc[t].d, s.pc[t].target, payload)])
    case Transmit(t, ok) => ApplyTransmit(cfg, s, t, ok)
    case LoseOut(t, i) =>
      s.(outbound := s.outbound[t := RemoveAt(s.outbound[t], i)])
    case Deliver(t, i) =>
      s.(outbound := s.outbound[t := RemoveAt(s.outbound[t], i)],
         delivered := s.delivered[t := s.delivered[t] + [s.outbound[t][i].of.tag]])
  }

  // ---------------------------------------------------------------- one pass through a thread's loop

  ghost function TakeAndStore(cfg: Connection, s: State, t: Tid): (s': State)
    requires Total(s) && s.pc[t].Received?
    ensures Total(s') && s'.pc[t].Ready? && s'.pc[t].d == s.pc[t].d
    ensures s'.pc == s.pc[t := s'.pc[t]]
  {
    Apply(cfg, Apply(cfg, s, Choose(t)), Store(t))
  }

  /** The four steps between recvfrom and the next recvfrom, uninterrupted. */
  ghost function Pass(cfg: Connection, s: State, t: Tid, payload: seq<Byte>, ok: bool): (s': State)
    requires Total(s) && s.pc[t].Received? && F.Forwarded(s.pc[t].d.data, payload)
    requires ok ==> !s.pc[Partner(t)].Closed?
  {
    Apply(cfg, Apply(cfg, TakeAndStore(cfg, s, t), Mutate(t, payload)), Transmit(t, ok))
  }

  /** What they do to the state, when `d` was received. */
  ghost function Effect(cfg: Connection, s: State, t: Tid, d: Datagram, payload: seq<Byte>, ok: bool): (s': State)
    requires Total(s)
    ensures Total(s')
  {
    var (target, rest) := ChoosePort(cfg, t, d.port, s.queue);
    var x := Transmission(cfg.Ip(Other(t.from)), WirePort(target), payload, d);
    var pops := cfg.Dynamic(Other(t.from));
    s.(queue := StorePort(cfg, t, d.port, rest),
       pc := s.pc[t := Idle],
       sent := s.sent[t := s.sent[t] + [x]],
       outbound := if ok then s.outbound[t := s.outbound[t] + [x]] else s.outbound,
       pushed := if Stores(cfg, t) then s.pushed + [d] else s.pushed,
       popped := if pops && s.queue != [] then s.popped + [s.queue[0]] else s.popped,
       starved := if pops && s.queue == [] then s.starved + 1 else s.starved)
  }

  lemma PassEffect(cfg: Connection, s: State, t: Tid, payload: seq<Byte>, ok: bool)
    requires Total(s) && s.pc[t].Received? && F.Forwarded(s.pc[t].d.data, payload)
    requires ok ==> !s.pc[Partner(t)].Closed?
    ensures Pass(cfg, s, t, payload, ok) == Effect(cfg, s, t, s.pc[t].d, payload, ok)
  {
    var d := s.pc[t].d;
    var (target, rest) := ChoosePort(cfg, t, d.port, s.queue);
    TakeAndStoreEffect(cfg, s, t);
    assert s.pc[t := Ready(d, target)][t := Fuzzed(d, target, payload)][t := Idle] == s.pc[t := Idle];
  }

  lemma TakeAndStoreEffect(cfg: Connection, s: State, t: Tid)
    requires Total(s) && s.pc[t].Received?
    ensures var d := s.pc[t].d;
      var e := Effect(cfg, s, t, d, d.data, false);
      TakeAndStore(cfg, s, t)
      == e.(pc := s.pc[t := Ready(d, ChoosePort(cfg, t, d.port, s.queue).0)], sent := s.sent)
  {
    var d := s.pc[t].d;
    var target := ChoosePort(cfg, t, d.port, s.queue).0;
    assert s.pc[t := Targeted(d, target)][t := Ready(d, target)] == s.pc[t := Ready(d, target)];
  }

  // ---------------------------------------------------------------- environments and runs

  /** What is assumed about network and endpoints.
      - `Any`: nothing.
      - `Answering(d)`: the endpoint opposite to `d` sends at most one packet per packet
        delivered to it by d's receive thread, and nothing else; the network may lose and
        reorder, but not duplicate.
      - `InOrder(d, via)`: in addition every such packet is answered in turn, to one socket,
        and from the moment its source port is stored nothing about it is lost or
        overtaken. Requests may still be lost or reordered before they reach the proxy. */
  datatype Environment = Any | Answering(d: Side) | InOrder(d: Side, via: Tid)

  ghost predicate Allowed(env: Environment, s: State, a: Action)
    requires Total(s)
  {
    match env
    case Any => true
    case Answering(d) =>
      a.Emit? && a.to.from == Other(d) ==>
        |s.emitted[Other(d)]| < |s.delivered[Tid(Receiver, d)]|
    case InOrder(d, via) =>
      var rd := Tid(Receiver, d);
      match a
      case Emit(t, p) =>
        if t.from == d then p.tag == |s.emitted[d]|
        else
          && t == via
          && |s.emitted[t.from]| < |s.delivered[rd]|
          && p.tag == s.delivered[rd][|s.emitted[t.from]|]
      case LoseIn(t, _) => t != via
      case Receive(t, i) => t == via ==> i == 0
      case Transmit(t, ok) => t == rd ==> ok || s.pc[via].Closed?
      case LoseOut(t, _) => t != rd
      case Deliver(t, i) => t == rd ==> i == 0
      case _ => true
  }

  ghost function Run(cfg: Connection, env: Environment, acts: seq<Action>): (s: State)
    requires Legal(cfg, env, acts)
    ensures Total(s)
    decreases acts, 1
  {
    if acts == [] then Init()
    else Apply(cfg, Run(cfg, env, acts[..|acts| - 1]), acts[|acts| - 1])
  }

  /** `acts` is an interleaving the machine and the environment can produce. */
  ghost predicate Legal(cfg: Connection, env: Environment, acts: seq<Action>)
    decreases acts, 0
  {
    acts == [] ||
    var front, last := acts[..|acts| - 1], acts[|acts| - 1];
    && Legal(cfg, env, front)
    && Enabled(cfg, Run(cfg, env, front), last)
    && Allowed(env, Run(cfg, env, front), last)
  }
}
