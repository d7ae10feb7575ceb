/** What holds in every interleaving of a connection's threads. */
module ProxyTheorems {
  import opened Base
  import opened Topology
  import opened ProxyMachine
  import F = FuzzerCore

  function Ports(ds: seq<Datagram>): (r: seq<int>) {
    seq(|ds|, i requires 0 <= i < |ds| => ds[i].port)
  }

  // ---------------------------------------------------------------- the queue is a queue

  ghost predicate QueueInv(s: State) {
    s.popped + s.queue == Ports(s.pushed)
  }

  lemma QueueStep(cfg: Connection, s: State, a: Action)
    requires Total(s) && Enabled(cfg, s, a) && QueueInv(s)
    ensures QueueInv(Apply(cfg, s, a))
  {
    match a
    case Choose(t) =>
      if s.queue != [] {
        assert s.popped + s.queue == s.popped + [s.queue[0]] + s.queue[1..];
      }
    case Store(t) =>
      var d := s.pc[t].d;
      assert Ports(s.pushed + [d]) == Ports(s.pushed) + [d.port];
      assert s.popped + (s.queue + [d.port]) == s.popped + s.queue + [d.port];
    case _ =>
  }

  /** Whatever is dynamic and whoever pushes and pops when: the ports taken so far followed
      by the ports still queued are the ports stored, in order. */
  lemma {:induction false} QueueHistory(cfg: Connection, env: Environment, acts: seq<Action>)
    requires Legal(cfg, env, acts)
    ensures QueueInv(Run(cfg, env, acts))
  {
    if acts != [] {
      var front := acts[..|acts| - 1];
      QueueHistory(cfg, env, front);
      QueueStep(cfg, Run(cfg, env, front), acts[|acts| - 1]);
    }
  }

  // ---------------------------------------------------------------- provenance

  /** `d` is what the proxy read of a datagram that endpoint `e` really sent. */
  ghost predicate Came(s: State, e: Side, d: Datagram)
    requires Total(s)
  {
    0 < |d.data| <= BUFFER_SIZE && exists g :: g in s.emitted[e] && d == Truncated(g)
  }

  ghost predicate TargetOk(cfg: Connection, s: State, t: Tid, d: Datagram, target: int) {
    if !cfg.Dynamic(Other(t.from)) then
      target == cfg.Port(Other(t.from))
    else
      || target in s.popped
      || (s.starved > 0 && target == (if t.role == Receiver then DYNAMIC else d.port))
  }

  ghost predicate PcOk(cfg: Connection, s: State, t: Tid)
    requires Total(s)
  {
    match s.pc[t]
    case Idle => true
    case Closed => true
    case Received(d) => Came(s, t.from, d)
    case Targeted(d, target) => Came(s, t.from, d) && TargetOk(cfg, s, t, d, target)
    case Ready(d, target) => Came(s, t.from, d) && TargetOk(cfg, s, t, d, target)
    case Fuzzed(d, target, payload) =>
      Came(s, t.from, d) && TargetOk(cfg, s, t, d, target) && F.Forwarded(d.data, payload)
  }

  /** A transmission is addressed to the opposite endpoint, carries a forwarded form of a
      datagram this thread's endpoint sent, and goes to a port accounted for. */
  ghost predicate SentOk(cfg: Connection, s: State, t: Tid, x: Transmission)
    requires Total(s)
  {
    && x.ip == cfg.Ip(Other(t.from))
    && Came(s, t.from, x.of)
    && F.Forwarded(x.of.data, x.data)
    && exists target :: TargetOk(cfg, s, t, x.of, target) && x.port == WirePort(target)
  }

  ghost predicate StoredOk(cfg: Connection, s: State, d: Datagram)
    requires Total(s)
  {
    exists e: Side :: cfg.Dynamic(e) && Came(s, e, d)
  }

  ghost predicate Provenance(cfg: Connection, s: State)
    requires Total(s)
  {
    && (forall e: Side, g :: g in s.emitted[e] ==> 0 <= g.port < 0x1_0000)
    && (forall t: Tid, d :: d in s.inbound[t] ==> d in s.emitted[t.from])
    && (forall t: Tid :: PcOk(cfg, s, t))
    && (forall d :: d in s.pushed ==> StoredOk(cfg, s, d))
    && (forall t: Tid, x :: x in s.sent[t] ==> SentOk(cfg, s, t, x))
    && (forall t: Tid, x :: x in s.outbound[t] ==> x in s.sent[t])
  }

  /** The histories only grow. */
  lemma Grows(cfg: Connection, s: State, a: Action)
    requires Total(s) && Enabled(cfg, s, a)
    ensures var s' := Apply(cfg, s, a);
      && (forall e: Side, g :: g in s.emitted[e] ==> g in s'.emitted[e])
      && (forall p :: p in s.popped ==> p in s'.popped)
      && s.starved <= s'.starved
  {
  }

  lemma CameGrows(s: State, s': State, e: Side, d: Datagram)
    requires Total(s) && Total(s') && Came(s, e, d)
    requires forall g :: g in s.emitted[e] ==> g in s'.emitted[e]
    ensures Came(s', e, d)
  {
  }

  lemma PcSame(cfg: Connection, s: State, a: Action, u: Tid)
    requires Total(s) && Enabled(cfg, s, a) && PcOk(cfg, s, u) && Apply(cfg, s, a).pc[u] == s.pc[u]
    ensures PcOk(cfg, Apply(cfg, s, a), u)
  {
    Grows(cfg, s, a);
  }

  lemma PcChoose(cfg: Connection, s: State, t: Tid)
    requires Total(s) && s.pc[t].Received? && PcOk(cfg, s, t)
    ensures PcOk(cfg, ApplyChoose(cfg, s, t), t)
  {
    var s' := ApplyChoose(cfg, s, t);
    assert s'.emitted == s.emitted;
    if cfg.Dynamic(Other(t.from)) && s.queue != [] {
      assert s.queue[0] in s'.popped;
    }
  }

  lemma PcMoves(cfg: Connection, s: State, a: Action)
    requires Total(s) && Enabled(cfg, s, a) && (a.Store? || a.Mutate? || a.Transmit? || a.Fail?) && PcOk(cfg, s, a.t)
    ensures PcOk(cfg, Apply(cfg, s, a), a.t)
  {
    assert Apply(cfg, s, a).emitted == s.emitted && Apply(cfg, s, a).popped == s.popped;
  }

  lemma PcReceive(cfg: Connection, s: State, t: Tid, i: nat)
    requires Total(s) && Enabled(cfg, s, Receive(t, i)) && s.inbound[t][i] in s.emitted[t.from]
    ensures PcOk(cfg, Apply(cfg, s, Receive(t, i)), t)
  {
  }

  lemma PcStep(cfg: Connection, s: State, a: Action, u: Tid)
    requires Total(s) && Enabled(cfg, s, a) && Provenance(cfg, s)
    ensures PcOk(cfg, Apply(cfg, s, a), u)
  {
    assert PcOk(cfg, s, u);
    if a.Receive? && a.t == u {
      PcReceive(cfg, s, u, a.i);
    } else if a.Choose? && a.t == u {
      PcChoose(cfg, s, u);
    } else if (a.Store? || a.Mutate? || a.Transmit? || a.Fail?) && a.t == u {
      PcMoves(cfg, s, a);
    } else {
      PcSame(cfg, s, a, u);
    }
  }

  lemma SentGrows(cfg: Connection, s: State, a: Action, t: Tid, x: Transmission)
    requires Total(s) && Enabled(cfg, s, a) && SentOk(cfg, s, t, x)
    ensures SentOk(cfg, Apply(cfg, s, a), t, x)
  {
    Grows(cfg, s, a);
    CameGrows(s, Apply(cfg, s, a), t.from, x.of);
    var target :| TargetOk(cfg, s, t, x.of, target) && x.port == WirePort(target);
    assert TargetOk(cfg, Apply(cfg, s, a), t, x.of, target);
  }

  lemma SentStep(cfg: Connection, s: State, a: Action, t: Tid, x: Transmission)
    requires Total(s) && Enabled(cfg, s, a) && Provenance(cfg, s)
    requires x in Apply(cfg, s, a).sent[t]
    ensures SentOk(cfg, Apply(cfg, s, a), t, x)
  {
    if x in s.sent[t] {
      SentGrows(cfg, s, a, t, x);
    } else {
      assert PcOk(cfg, s, t);
      var Fuzzed(d, target, payload) := s.pc[t];
      assert TargetOk(cfg, Apply(cfg, s, a), t, x.of, target);
    }
  }

  lemma StoredStep(cfg: Connection, s: State, a: Action, d: Datagram)
    requires Total(s) && Enabled(cfg, s, a) && Provenance(cfg, s)
    requires d in Apply(cfg, s, a).pushed
    ensures StoredOk(cfg, Apply(cfg, s, a), d)
  {
    Grows(cfg, s, a);
    if d in s.pushed {
      var e: Side :| cfg.Dynamic(e) && Came(s, e, d);
      CameGrows(s, Apply(cfg, s, a), e, d);
    } else {
      assert PcOk(cfg, s, a.t);
      CameGrows(s, Apply(cfg, s, a), a.t.from, d);
    }
  }

  lemma InboundStep(cfg: Connection, s: State, a: Action)
    requires Total(s) && Enabled(cfg, s, a) && Provenance(cfg, s)
    ensures var s' := Apply(cfg, s, a);
      && (forall e: Side, g :: g in s'.emitted[e] ==> 0 <= g.port < 0x1_0000)
      && (forall t: Tid, d :: d in s'.inbound[t] ==> d in s'.emitted[t.from])
  {
  }

  lemma OutboundStep(cfg: Connection, s: State, a: Action)
    requires Total(s) && Enabled(cfg, s, a) && Provenance(cfg, s)
    ensures var s' := Apply(cfg, s, a);
      forall t: Tid, x :: x in s'.outbound[t] ==> x in s'.sent[t]
  {
  }

  lemma ProvenanceStep(cfg: Connection, s: State, a: Action)
    requires Total(s) && Enabled(cfg, s, a) && Provenance(cfg, s)
    ensures Provenance(cfg, Apply(cfg, s, a))
  {
    var s' := Apply(cfg, s, a);
    InboundStep(cfg, s, a);
    OutboundStep(cfg, s, a);
    forall u: Tid ensures PcOk(cfg, s', u) { PcStep(cfg, s, a, u); }
    forall u: Tid, x | x in s'.sent[u] ensures SentOk(cfg, s', u, x) { SentStep(cfg, s, a, u, x); }
    forall d | d in s'.pushed ensures StoredOk(cfg, s', d) { StoredStep(cfg, s, a, d); }
  }

  lemma {:induction false} ProvenanceHolds(cfg: Connection, env: Environment, acts: seq<Action>)
    requires Legal(cfg, env, acts)
    ensures Provenance(cfg, Run(cfg, env, acts))
  {
    if acts != [] {
      var front := acts[..|acts| - 1];
      ProvenanceHolds(cfg, env, front);
      ProvenanceStep(cfg, Run(cfg, env, front), acts[|acts| - 1]);
    }
  }

  /** What every transmission is, without reference to the steps that made it: it goes to the
      other endpoint's address, to its port if that is fixed; it stems from a non-empty
      datagram that the thread's own endpoint sent, of which at most 4096 bytes were read; and
      it is empty, or what was read, or 65499 bytes that begin with what was read. */
  lemma SentIsReal(cfg: Connection, env: Environment, acts: seq<Action>, t: Tid, x: Transmission) returns (g: Datagram)
    requires Legal(cfg, env, acts) && x in Run(cfg, env, acts).sent[t]
    ensures g in Run(cfg, env, acts).emitted[t.from] && g.data != []
    ensures x.of.port == g.port && x.of.tag == g.tag
    ensures x.of.data == if |g.data| <= 4096 then g.data else g.data[..4096]
    ensures x.data == [] || x.data == x.of.data || (|x.data| == 65499 && x.of.data <= x.data)
    ensures x.ip == if t.from == A then cfg.bIp else cfg.aIp
    ensures var port := if t.from == A then cfg.bPort else cfg.aPort;
      port != -1 ==> x.port == port % 65536
  {
    ProvenanceHolds(cfg, env, acts);
    var s := Run(cfg, env, acts);
    assert SentOk(cfg, s, t, x);
    g := OfSome(s, t.from, x.of);
  }

  lemma OfSome(s: State, e: Side, d: Datagram) returns (g: Datagram)
    requires Total(s) && Came(s, e, d)
    ensures g in s.emitted[e] && g.data != [] && d.port == g.port && d.tag == g.tag
    ensures d.data == if |g.data| <= 4096 then g.data else g.data[..4096]
  {
    g :| g in s.emitted[e] && d == Truncated(g);
  }

  /** Endpoint `e` sent some datagram from source port `port`. */
  ghost predicate SentFrom(s: State, e: Side, port: int)
    requires Total(s)
  {
    exists g :: g in s.emitted[e] && g.port == port
  }

  /** With exactly one dynamic side, every port taken from the queue is one that side
      really sent from. */
  lemma OneDynamicSide(cfg: Connection, env: Environment, acts: seq<Action>, e: Side)
    requires Legal(cfg, env, acts) && cfg.Dynamic(e) && !cfg.Dynamic(Other(e))
    ensures forall p :: p in Run(cfg, env, acts).popped ==> SentFrom(Run(cfg, env, acts), e, p)
  {
    var s := Run(cfg, env, acts);
    QueueHistory(cfg, env, acts);
    ProvenanceHolds(cfg, env, acts);
    forall p | p in s.popped
      ensures SentFrom(s, e, p)
    {
      var k :| 0 <= k < |s.popped| && s.popped[k] == p;
      assert (s.popped + s.queue)[k] == p;
      assert s.pushed[k] in s.pushed && StoredOk(cfg, s, s.pushed[k]);
      var w: Side :| cfg.Dynamic(w) && Came(s, w, s.pushed[k]);
      assert w == e;
    }
  }

  /** An endpoint that always sends from one port gets nothing but that port back. */
  lemma FixedSourcePort(cfg: Connection, env: Environment, acts: seq<Action>, e: Side, port: int)
    requires Legal(cfg, env, acts) && cfg.Dynamic(e) && !cfg.Dynamic(Other(e))
    requires forall g :: g in Run(cfg, env, acts).emitted[e] ==> g.port == port
    ensures forall p :: p in Run(cfg, env, acts).popped ==> p == port
  {
    OneDynamicSide(cfg, env, acts, e);
  }

  // ---------------------------------------------------------------- when a pop finds an empty queue

  lemma FourThreads(t: Tid, e: Side)
    ensures t.from == e || t.from == Other(e)
    ensures t.role == Receiver || t.role == Sender
    ensures t == Tid(t.role, t.from)
  {
  }

  /** A thread reading from the fixed side asks for a port of `e`. */
  predicate Takes(a: Action, e: Side) { a.Choose? && a.t.from == Other(e) }

  predicate Puts(a: Action, e: Side) { a == Store(Tid(Receiver, e)) }

  function Taken(acts: seq<Action>, e: Side): (n: nat) {
    if acts == [] then 0 else Taken(acts[..|acts| - 1], e) + One(Takes(acts[|acts| - 1], e))
  }

  function Put(acts: seq<Action>, e: Side): (n: nat) {
    if acts == [] then 0 else Put(acts[..|acts| - 1], e) + One(Puts(acts[|acts| - 1], e))
  }

  /** At no moment have more ports been asked for than stored. */
  ghost predicate Covered(acts: seq<Action>, e: Side) {
    forall n :: 0 <= n <= |acts| ==> Taken(acts[..n], e) <= Put(acts[..n], e)
  }

  lemma CoveredNext(acts: seq<Action>, e: Side)
    requires acts != []
    ensures Covered(acts, e) <==> Covered(acts[..|acts| - 1], e) && Taken(acts, e) <= Put(acts, e)
  {
    var front := acts[..|acts| - 1];
    assert acts[..|acts|] == acts;
    assert forall n :: 0 <= n <= |front| ==> acts[..n] == front[..n];
  }

  lemma CountsStep(cfg: Connection, s: State, a: Action, e: Side)
    requires Total(s) && Enabled(cfg, s, a) && cfg.Dynamic(e) && !cfg.Dynamic(Other(e))
    ensures var s' := Apply(cfg, s, a);
      && |s'.pushed| == |s.pushed| + One(Puts(a, e))
      && |s'.popped| + s'.starved == |s.popped| + s.starved + One(Takes(a, e))
  {
    match a
    case Choose(t) => FourThreads(t, e);
    case Store(t) => FourThreads(t, e);
    case _ =>
  }

  lemma {:induction false} CountsHold(cfg: Connection, env: Environment, acts: seq<Action>, e: Side)
    requires Legal(cfg, env, acts) && cfg.Dynamic(e) && !cfg.Dynamic(Other(e))
    ensures var s := Run(cfg, env, acts);
      |s.pushed| == Put(acts, e) && |s.popped| + s.starved == Taken(acts, e)
  {
    if acts != [] {
      var front := acts[..|acts| - 1];
      CountsHold(cfg, env, front, e);
      CountsStep(cfg, Run(cfg, env, front), acts[|acts| - 1], e);
    }
  }

  lemma Balance(cfg: Connection, env: Environment, acts: seq<Action>, e: Side)
    requires Legal(cfg, env, acts) && cfg.Dynamic(e) && !cfg.Dynamic(Other(e))
    ensures |Run(cfg, env, acts).queue| + Taken(acts, e) == Put(acts, e) + Run(cfg, env, acts).starved
  {
    var s := Run(cfg, env, acts);
    CountsHold(cfg, env, acts, e);
    QueueHistory(cfg, env, acts);
    assert |s.popped + s.queue| == |s.pushed|;
  }

  lemma StarvesStep(cfg: Connection, s: State, a: Action, e: Side)
    requires Total(s) && Enabled(cfg, s, a) && cfg.Dynamic(e) && !cfg.Dynamic(Other(e))
    ensures Apply(cfg, s, a).starved == 0 <==> s.starved == 0 && (Takes(a, e) ==> s.queue != [])
  {
    match a
    case Choose(t) => FourThreads(t, e);
    case _ =>
  }

  /** Whatever network and endpoints do, the queue is never found empty exactly if at every
      moment the packets asked to be sent to `e` are covered by packets received from it. */
  lemma {:induction false} StarvesExactly(cfg: Connection, env: Environment, acts: seq<Action>, e: Side)
    requires Legal(cfg, env, acts) && cfg.Dynamic(e) && !cfg.Dynamic(Other(e))
    ensures Run(cfg, env, acts).starved == 0 <==> Covered(acts, e)
  {
    if acts != [] {
      var front, last := acts[..|acts| - 1], acts[|acts| - 1];
      StarvesExactly(cfg, env, front, e);
      CoveredNext(acts, e);
      StarvesStep(cfg, Run(cfg, env, front), last, e);
      Balance(cfg, env, front, e);
      Balance(cfg, env, acts, e);
    }
  }

  // ---------------------------------------------------------------- a fixed side that only answers

  /** Stored, not yet handed to sendto. */
  function InHand(pc: Pc): nat { One(pc.Ready? || pc.Fuzzed?) }

  /** Packets that still entitle the fixed endpoint `Other(e)`, or a thread reading from it,
      to one pop. */
  ghost function Entitled(s: State, e: Side): int
    requires Total(s)
  {
    var o := Other(e);
    InHand(s.pc[Tid(Receiver, e)]) + |s.outbound[Tid(Receiver, e)]|
    + (|s.delivered[Tid(Receiver, e)]| - |s.emitted[o]|)
    + |s.inbound[Tid(Receiver, o)]| + |s.inbound[Tid(Sender, o)]|
    + One(s.pc[Tid(Receiver, o)].Received?) + One(s.pc[Tid(Sender, o)].Received?)
  }

  /** What has been taken and may still be taken is covered by what was stored. */
  ghost predicate Funded(taken: nat, put: nat, s: State, e: Side)
    requires Total(s)
  {
    && |s.emitted[Other(e)]| <= |s.delivered[Tid(Receiver, e)]|
    && taken + Entitled(s, e) <= put
  }

  lemma FundedStep(cfg: Connection, s: State, a: Action, e: Side, taken: nat, put: nat)
    requires Total(s) && Enabled(cfg, s, a) && Allowed(Answering(e), s, a)
    requires cfg.Dynamic(e) && !cfg.Dynamic(Other(e)) && Funded(taken, put, s, e)
    ensures Funded(taken + One(Takes(a, e)), put + One(Puts(a, e)), Apply(cfg, s, a), e)
  {
    match a
    case Emit(t, d) => FundedEmit(cfg, s, t, d, e, taken, put);
    case Receive(t, i) => FundedReceive(cfg, s, t, i, e, taken, put);
    case Choose(t) => FundedChoose(cfg, s, t, e, taken, put);
    case Store(t) => FundedStore(cfg, s, t, e, taken, put);
    case Transmit(t, ok) => FundedTransmit(cfg, s, t, ok, e, taken, put);
    case LoseIn(t, i) => FundedLoseIn(cfg, s, t, i, e, taken, put);
    case LoseOut(t, i) => FundedLoseOut(cfg, s, t, i, e, taken, put);
    case Deliver(t, i) => FundedDeliver(cfg, s, t, i, e, taken, put);
    case _ => FundedPc(cfg, s, a, e, taken, put);
  }

  lemma FundedEmit(cfg: Connection, s: State, t: Tid, d: Datagram, e: Side, taken: nat, put: nat)
    requires Total(s) && Enabled(cfg, s, Emit(t, d)) && Allowed(Answering(e), s, Emit(t, d))
    requires Funded(taken, put, s, e)
    ensures Funded(taken, put, Apply(cfg, s, Emit(t, d)), e)
  {
    FourThreads(t, e);
  }

  lemma FundedReceive(cfg: Connection, s: State, t: Tid, i: nat, e: Side, taken: nat, put: nat)
    requires Total(s) && Enabled(cfg, s, Receive(t, i)) && Funded(taken, put, s, e)
    ensures Funded(taken, put, Apply(cfg, s, Receive(t, i)), e)
  {
    FourThreads(t, e);
  }

  lemma FundedChoose(cfg: Connection, s: State, t: Tid, e: Side, taken: nat, put: nat)
    requires Total(s) && s.pc[t].Received? && Funded(taken, put, s, e)
    ensures Funded(taken + One(t.from == Other(e)), put, ApplyChoose(cfg, s, t), e)
  {
    FourThreads(t, e);
    var s' := ApplyChoose(cfg, s, t);
    assert s' == s.(queue := s'.queue, popped := s'.popped, starved := s'.starved, pc := s'.pc);
  }

  lemma FundedStore(cfg: Connection, s: State, t: Tid, e: Side, taken: nat, put: nat)
    requires Total(s) && s.pc[t].Targeted? && Funded(taken, put, s, e)
    ensures Funded(taken, put + One(t == Tid(Receiver, e)), ApplyStore(cfg, s, t), e)
  {
    FourThreads(t, e);
  }

  lemma FundedTransmit(cfg: Connection, s: State, t: Tid, ok: bool, e: Side, taken: nat, put: nat)
    requires Total(s) && s.pc[t].Fuzzed? && Funded(taken, put, s, e)
    ensures Funded(taken, put, ApplyTransmit(cfg, s, t, ok), e)
  {
    FourThreads(t, e);
  }

  lemma FundedLoseIn(cfg: Connection, s: State, t: Tid, i: nat, e: Side, taken: nat, put: nat)
    requires Total(s) && Enabled(cfg, s, LoseIn(t, i)) && Funded(taken, put, s, e)
    ensures Funded(taken, put, Apply(cfg, s, LoseIn(t, i)), e)
  {
    FourThreads(t, e);
  }

  lemma FundedLoseOut(cfg: Connection, s: State, t: Tid, i: nat, e: Side, taken: nat, put: nat)
    requires Total(s) && Enabled(cfg, s, LoseOut(t, i)) && Funded(taken, put, s, e)
    ensures Funded(taken, put, Apply(cfg, s, LoseOut(t, i)), e)
  {
  }

  lemma FundedDeliver(cfg: Connection, s: State, t: Tid, i: nat, e: Side, taken: nat, put: nat)
    requires Total(s) && Enabled(cfg, s, Deliver(t, i)) && Funded(taken, put, s, e)
    ensures Funded(taken, put, Apply(cfg, s, Deliver(t, i)), e)
  {
  }

  lemma FundedPc(cfg: Connection, s: State, a: Action, e: Side, taken: nat, put: nat)
    requires Total(s) && Enabled(cfg, s, a) && (a.Fail? || a.Mutate?) && Funded(taken, put, s, e)
    ensures Funded(taken, put, Apply(cfg, s, a), e)
  {
    FourThreads(a.t, e);
  }

  lemma {:induction false} FundedHolds(cfg: Connection, acts: seq<Action>, e: Side)
    requires Legal(cfg, Answering(e), acts) && cfg.Dynamic(e) && !cfg.Dynamic(Other(e))
    ensures Funded(Taken(acts, e), Put(acts, e), Run(cfg, Answering(e), acts), e)
    ensures Covered(acts, e)
  {
    if acts != [] {
      var front := acts[..|acts| - 1];
      FundedHolds(cfg, front, e);
      FundedStep(cfg, Run(cfg, Answering(e), front), acts[|acts| - 1], e, Taken(front, e), Put(front, e));
      CoveredNext(acts, e);
    }
  }

  lemma ForwardedToSource(cfg: Connection, s: State, e: Side, t: Tid, x: Transmission)
    requires Total(s) && Provenance(cfg, s) && s.starved == 0
    requires cfg.Dynamic(e) && forall p :: p in s.popped ==> SentFrom(s, e, p)
    requires t.from == Other(e) && x in s.sent[t]
    ensures x.ip == cfg.Ip(e) && SentFrom(s, e, x.port)
  {
  }

  /** If the fixed endpoint only answers, at most once, what e's receive thread delivered to
      it, then under any interleaving, loss and reordering no pop finds the queue empty, and
      everything forwarded to `e` goes to a port `e` really sent from. */
  lemma NoStarvation(cfg: Connection, acts: seq<Action>, e: Side)
    requires Legal(cfg, Answering(e), acts) && cfg.Dynamic(e) && !cfg.Dynamic(Other(e))
    ensures Run(cfg, Answering(e), acts).starved == 0
    ensures forall t: Tid, x :: t.from == Other(e) && x in Run(cfg, Answering(e), acts).sent[t] ==>
      x.ip == cfg.Ip(e) && SentFrom(Run(cfg, Answering(e), acts), e, x.port)
  {
    FundedHolds(cfg, acts, e);
    StarvesExactly(cfg, Answering(e), acts, e);
    OneDynamicSide(cfg, Answering(e), acts, e);
    ProvenanceHolds(cfg, Answering(e), acts);
    var s := Run(cfg, Answering(e), acts);
    forall t: Tid, x | t.from == Other(e) && x in s.sent[t]
      ensures x.ip == cfg.Ip(e) && SentFrom(s, e, x.port)
    {
      ForwardedToSource(cfg, s, e, t, x);
    }
  }

  // ---------------------------------------------------------------- when a thread ends

  /** The run holds a failed recvfrom of thread `t`, or one that returned no bytes. */
  ghost predicate Ended(cfg: Connection, env: Environment, acts: seq<Action>, t: Tid)
    requires Legal(cfg, env, acts)
  {
    acts != [] &&
    var front, last := acts[..|acts| - 1], acts[|acts| - 1];
    Ended(cfg, env, front, t) || Ends(cfg, Run(cfg, env, front), last, t)
  }

  ghost predicate Ends(cfg: Connection, s: State, a: Action, t: Tid)
    requires Total(s) && Enabled(cfg, s, a)
  {
    a == Fail(t) || (a.Receive? && a.t == t && s.inbound[t][a.i].data == [])
  }

  lemma EndsStep(cfg: Connection, s: State, a: Action, t: Tid)
    requires Total(s) && Enabled(cfg, s, a)
    ensures Apply(cfg, s, a).pc[t].Closed? <==> s.pc[t].Closed? || Ends(cfg, s, a, t)
  {
    match a
    case Choose(_) =>
    case Store(_) =>
    case Transmit(_, _) =>
    case _ =>
  }

  /** A thread has closed its socket exactly if that happened. */
  lemma {:induction false} EndsExactly(cfg: Connection, env: Environment, acts: seq<Action>, t: Tid)
    requires Legal(cfg, env, acts)
    ensures Run(cfg, env, acts).pc[t].Closed? <==> Ended(cfg, env, acts, t)
  {
    if acts != [] {
      var front := acts[..|acts| - 1];
      EndsExactly(cfg, env, front, t);
      EndsStep(cfg, Run(cfg, env, front), acts[|acts| - 1], t);
    }
  }

  lemma ClosedStep(cfg: Connection, s: State, a: Action, t: Tid)
    requires Total(s) && Enabled(cfg, s, a) && s.pc[t].Closed?
    ensures Apply(cfg, s, a).pc[t].Closed? && Apply(cfg, s, a).sent[t] == s.sent[t]
  {
    match a
    case Choose(_) =>
    case Store(_) =>
    case Transmit(_, _) =>
    case _ =>
  }

  /** Nothing revives it, and it never sends again. */
  lemma {:induction false} ClosedForGood(cfg: Connection, env: Environment, acts: seq<Action>, n: nat, t: Tid)
    requires Legal(cfg, env, acts) && n <= |acts|
    ensures Legal(cfg, env, acts[..n])
    ensures Run(cfg, env, acts[..n]).pc[t].Closed? ==>
      && Run(cfg, env, acts).pc[t].Closed?
      && Run(cfg, env, acts).sent[t] == Run(cfg, env, acts[..n]).sent[t]
  {
    if n == |acts| {
      assert acts[..n] == acts;
    } else {
      var front := acts[..|acts| - 1];
      assert front[..n] == acts[..n];
      ClosedForGood(cfg, env, front, n, t);
      if Run(cfg, env, acts[..n]).pc[t].Closed? {
        ClosedStep(cfg, Run(cfg, env, front), acts[|acts| - 1], t);
      }
    }
  }
}
