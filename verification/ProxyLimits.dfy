/** What the proxy does when the assumptions of `NoStarvation`, `OneDynamicSide` and
    `RepliesReachTheirRequests` are dropped, for every connection and every non-empty
    datagram. */
module ProxyLimits {
  import opened Topology
  import opened ProxyMachine
  import opened ProxyTheorems

  ghost predicate Reachable(cfg: Connection, s: State) {
    exists acts :: Legal(cfg, Any, acts) && Run(cfg, Any, acts) == s
  }

  /** A set of states that holds the initial state and is closed under steps. */
  ghost predicate Closed(cfg: Connection, r: State -> bool) {
    r(Init()) && forall s, a {:trigger r(s), Enabled(cfg, s, a)} ::
      Total(s) && r(s) && Enabled(cfg, s, a) ==> r(Apply(cfg, s, a))
  }

  /** What a thread does between one recvfrom and the next. */
  predicate Works(a: Action) {
    a.Receive? || a.Choose? || a.Store? || a.Mutate? || a.Transmit?
  }

  ghost predicate ClosedUnderWork(cfg: Connection, r: State -> bool) {
    forall s, a {:trigger r(s), Enabled(cfg, s, a)} ::
      Total(s) && r(s) && Works(a) && Enabled(cfg, s, a) ==> r(Apply(cfg, s, a))
  }

  lemma Extend(cfg: Connection, acts: seq<Action>, a: Action)
    requires Legal(cfg, Any, acts) && Enabled(cfg, Run(cfg, Any, acts), a)
    ensures Legal(cfg, Any, acts + [a])
    ensures Run(cfg, Any, acts + [a]) == Apply(cfg, Run(cfg, Any, acts), a)
  {
    assert (acts + [a])[..|acts + [a]| - 1] == acts;
  }

  lemma ReachableIsClosed(cfg: Connection)
    ensures Closed(cfg, s => Reachable(cfg, s))
  {
    assert Reachable(cfg, Init()) by {
      assert Run(cfg, Any, []) == Init();
    }
    forall s, a | Total(s) && Reachable(cfg, s) && Enabled(cfg, s, a)
      ensures Reachable(cfg, Apply(cfg, s, a))
    {
      var acts :| Legal(cfg, Any, acts) && Run(cfg, Any, acts) == s;
      Extend(cfg, acts, a);
    }
  }

  // ---------------------------------------------------------------- one datagram passes

  /** Nothing under way: every thread waits at an empty socket. */
  ghost predicate Calm(s: State) {
    Total(s) && forall t: Tid :: s.pc[t] == Idle && s.inbound[t] == []
  }

  predicate Passable(cfg: Connection, t: Tid, d: Datagram) {
    Runs(cfg, t) && 0 <= d.port < 0x1_0000 && d.data != []
  }

  /** One datagram is received and forwarded unmutated by thread `t`. */
  ghost function Forward(cfg: Connection, s: State, t: Tid, d: Datagram): State
    requires Calm(s)
  {
    Effect(cfg, s, t, Truncated(d), Truncated(d).data, true)
    .(pc := s.pc, emitted := s.emitted[t.from := s.emitted[t.from] + [d]])
  }

  lemma StoreWork(cfg: Connection, r: State -> bool, s: State, t: Tid)
    requires ClosedUnderWork(cfg, r) && r(s) && Total(s) && s.pc[t].Received?
    ensures r(TakeAndStore(cfg, s, t))
  {
    assert Enabled(cfg, s, Choose(t));
    assert Enabled(cfg, Apply(cfg, s, Choose(t)), Store(t));
  }

  lemma PassWork(cfg: Connection, r: State -> bool, s: State, t: Tid)
    requires ClosedUnderWork(cfg, r) && r(s) && Total(s) && s.pc[t].Received? && !s.pc[Partner(t)].Closed?
    ensures r(Effect(cfg, s, t, s.pc[t].d, s.pc[t].d.data, true))
  {
    var d := s.pc[t].d;
    StoreWork(cfg, r, s, t);
    var s2 := TakeAndStore(cfg, s, t);
    assert Enabled(cfg, s2, Mutate(t, d.data));
    var s3 := Apply(cfg, s2, Mutate(t, d.data));
    assert r(s3) && Enabled(cfg, s3, Transmit(t, true));
    assert r(Pass(cfg, s, t, d.data, true));
    PassEffect(cfg, s, t, d.data, true);
  }

  ghost function Arrived(cfg: Connection, s: State, t: Tid, d: Datagram): State
    requires Calm(s)
  {
    s.(pc := s.pc[t := Received(Truncated(d))], emitted := s.emitted[t.from := s.emitted[t.from] + [d]])
  }

  lemma Arrives(cfg: Connection, s: State, t: Tid, d: Datagram)
    requires Calm(s) && Passable(cfg, t, d)
    ensures Enabled(cfg, s, Emit(t, d)) && Enabled(cfg, Apply(cfg, s, Emit(t, d)), Receive(t, 0))
    ensures Apply(cfg, Apply(cfg, s, Emit(t, d)), Receive(t, 0)) == Arrived(cfg, s, t, d)
  {
    var s1 := Apply(cfg, s, Emit(t, d));
    assert s1.inbound[t] == [d] && RemoveAt([d], 0) == [];
    assert s1.inbound[t := []] == s.inbound;
  }

  /** From the moment the datagram has been sent. */
  lemma PassFrom(cfg: Connection, r: State -> bool, s: State, t: Tid, d: Datagram)
    requires ClosedUnderWork(cfg, r) && Calm(s) && Passable(cfg, t, d) && r(Apply(cfg, s, Emit(t, d)))
    ensures r(Forward(cfg, s, t, d)) && Calm(Forward(cfg, s, t, d))
  {
    var s2 := Arrived(cfg, s, t, d);
    Arrives(cfg, s, t, d);
    PassWork(cfg, r, s2, t);
    assert s2.pc[t := Idle] == s.pc;
    assert Effect(cfg, s2, t, Truncated(d), Truncated(d).data, true) == Forward(cfg, s, t, d);
  }

  lemma PassWhole(cfg: Connection, r: State -> bool, s: State, t: Tid, d: Datagram)
    requires Closed(cfg, r) && r(s) && Calm(s) && Passable(cfg, t, d)
    ensures r(Forward(cfg, s, t, d)) && Calm(Forward(cfg, s, t, d))
  {
    assert Enabled(cfg, s, Emit(t, d));
    PassFrom(cfg, r, s, t, d);
  }

  // ---------------------------------------------------------------- reachable states

  // The states built with a parameter `r` lie in every closed set.

  /** The first packet of a dynamic side has passed its receive thread. */
  lemma OneStored(cfg: Connection, r: State -> bool, e: Side, p: Datagram) returns (s: State)
    requires Closed(cfg, r) && cfg.Dynamic(e) && Passable(cfg, Tid(Receiver, e), p)
    ensures r(s) && Calm(s)
    ensures s.queue == [p.port] && s.popped == [] && (!cfg.Dynamic(Other(e)) ==> s.starved == 0)
    ensures s.emitted[e] == [p] && s.emitted[Other(e)] == []
    ensures |s.sent[Tid(Receiver, e)]| == 1
    ensures forall t: Tid :: t != Tid(Receiver, e) ==> s.sent[t] == []
  {
    var t := Tid(Receiver, e);
    PassWhole(cfg, r, Init(), t, p);
    s := Forward(cfg, Init(), t, p);
  }

  /** A dynamic target can be given any port: the other side sends from it beforehand. */
  lemma AnyPort(cfg: Connection, r: State -> bool, t: Tid, port: int) returns (s: State)
    requires Closed(cfg, r) && t.role == Receiver && 0 <= port < 0x1_0000
    ensures r(s) && Total(s)
    ensures |s.sent[t]| == 1 && s.sent[t][0].ip == cfg.Ip(Other(t.from))
    ensures s.sent[t][0].port
         == if cfg.Dynamic(Other(t.from)) then port else WirePort(cfg.Port(Other(t.from)))
  {
    var far, d := Tid(Receiver, Other(t.from)), Datagram(port, [0], 0);
    var s1 := Init();
    if cfg.Dynamic(far.from) {
      s1 := OneStored(cfg, r, far.from, d);
      assert far != t;
    }
    PassWhole(cfg, r, s1, t, d);
    s := Forward(cfg, s1, t, d);
  }

  lemma FirstPacket(cfg: Connection, t: Tid, port: int) returns (acts: seq<Action>)
    requires t.role == Receiver && 0 <= port < 0x1_0000
    ensures Legal(cfg, Any, acts)
    ensures var x := Run(cfg, Any, acts).sent[t];
      && |x| == 1 && x[0].ip == cfg.Ip(Other(t.from))
      && x[0].port == if cfg.Dynamic(Other(t.from)) then port else WirePort(cfg.Port(Other(t.from)))
  {
    ReachableIsClosed(cfg);
    var s := AnyPort(cfg, u => Reachable(cfg, u), t, port);
    acts :| Legal(cfg, Any, acts) && Run(cfg, Any, acts) == s;
  }

  lemma UnsolicitedIn(cfg: Connection, r: State -> bool, t: Tid, d: Datagram) returns (s: State)
    requires Closed(cfg, r) && cfg.Dynamic(Other(t.from)) && Passable(cfg, t, d)
    ensures r(s) && Total(s) && s.emitted[t.from] == [d]
    ensures s.starved == 1 && |s.sent[t]| == 1 && s.sent[t][0].ip == cfg.Ip(Other(t.from))
    ensures s.sent[t][0].port == if t.role == Receiver then 65535 else d.port
  {
    PassWhole(cfg, r, Init(), t, d);
    s := Forward(cfg, Init(), t, d);
  }

  /** A first packet to a dynamic side finds the queue empty: a receive thread forwards it to
      port -1, which is 65535 on the wire, a send thread to the sender's own port. */
  lemma UnsolicitedPacketStarves(cfg: Connection, t: Tid, d: Datagram) returns (s: State)
    requires cfg.Dynamic(Other(t.from)) && Passable(cfg, t, d)
    ensures Reachable(cfg, s) && Total(s) && s.emitted[t.from] == [d]
    ensures s.starved == 1 && |s.sent[t]| == 1 && s.sent[t][0].ip == cfg.Ip(Other(t.from))
    ensures s.sent[t][0].port == if t.role == Receiver then 65535 else d.port
  {
    ReachableIsClosed(cfg);
    s := UnsolicitedIn(cfg, u => Reachable(cfg, u), t, d);
  }

  /** A packet of the dynamic side has passed its send thread. */
  lemma NotStored(cfg: Connection, r: State -> bool, e: Side, request: Datagram) returns (s: State)
    requires Closed(cfg, r) && cfg.Dynamic(e) && !cfg.Dynamic(Other(e)) && Passable(cfg, Tid(Sender, e), request)
    ensures r(s) && Calm(s) && s.queue == [] && s.starved == 0
    ensures s.emitted[e] == [request] && s.emitted[Other(e)] == []
    ensures |s.sent[Tid(Sender, e)]| == 1
    ensures forall t: Tid :: t != Tid(Sender, e) ==> s.sent[t] == []
  {
    PassWhole(cfg, r, Init(), Tid(Sender, e), request);
    s := Forward(cfg, Init(), Tid(Sender, e), request);
  }

  lemma AnswerIn(cfg: Connection, r: State -> bool, e: Side, request: Datagram, t: Tid, answer: Datagram)
    returns (s: State)
    requires Closed(cfg, r) && cfg.Dynamic(e) && !cfg.Dynamic(Other(e)) && t.from == Other(e)
    requires Passable(cfg, Tid(Sender, e), request) && Passable(cfg, t, answer)
    ensures r(s) && Total(s)
    ensures s.starved == 1 && s.emitted[e] == [request] && s.emitted[Other(e)] == [answer]
    ensures |s.sent[Tid(Sender, e)]| == 1 && |s.sent[t]| == 1
    ensures s.sent[t][0].port == if t.role == Receiver then 65535 else answer.port
  {
    var s1 := NotStored(cfg, r, e, request);
    PassWhole(cfg, r, s1, t, answer);
    s := Forward(cfg, s1, t, answer);
  }

  /** A packet of the dynamic side `e` that arrives at the socket the proxy answers from is
      forwarded without its port being stored, so even one answer to it finds the queue
      empty. */
  lemma AnswerToSendThreadStarves(cfg: Connection, e: Side, request: Datagram, t: Tid, answer: Datagram)
    returns (s: State)
    requires cfg.Dynamic(e) && !cfg.Dynamic(Other(e)) && t.from == Other(e)
    requires Passable(cfg, Tid(Sender, e), request) && Passable(cfg, t, answer)
    ensures Reachable(cfg, s) && Total(s)
    ensures s.starved == 1 && s.emitted[e] == [request] && s.emitted[Other(e)] == [answer]
    ensures |s.sent[Tid(Sender, e)]| == 1 && |s.sent[t]| == 1
    ensures s.sent[t][0].port == if t.role == Receiver then 65535 else answer.port
  {
    ReachableIsClosed(cfg);
    s := AnswerIn(cfg, u => Reachable(cfg, u), e, request, t, answer);
  }

  lemma Requests(cfg: Connection, r: State -> bool, e: Side, p: Datagram, q: Datagram) returns (s: State)
    requires Closed(cfg, r) && cfg.Dynamic(e) && !cfg.Dynamic(Other(e))
    requires Passable(cfg, Tid(Receiver, e), p) && Passable(cfg, Tid(Receiver, e), q)
    ensures r(s) && Calm(s) && s.starved == 0
    ensures s.queue == [p.port, q.port] && s.emitted[e] == [p, q]
    ensures forall t: Tid :: t.from == Other(e) ==> s.sent[t] == []
  {
    var client := Tid(Receiver, e);
    var s1 := OneStored(cfg, r, e, p);
    PassWhole(cfg, r, s1, client, q);
    s := Forward(cfg, s1, client, q);
  }

  lemma OvertakingIn(cfg: Connection, r: State -> bool, e: Side, p: Datagram, q: Datagram,
                     via: Tid, answerP: Datagram, answerQ: Datagram) returns (s: State)
    requires Closed(cfg, r) && cfg.Dynamic(e) && !cfg.Dynamic(Other(e)) && via.from == Other(e)
    requires Passable(cfg, Tid(Receiver, e), p) && Passable(cfg, Tid(Receiver, e), q)
    requires Passable(cfg, via, answerP) && Passable(cfg, via, answerQ)
    ensures r(s) && Total(s) && s.starved == 0 && s.emitted[e] == [p, q]
    ensures var replies := s.sent[via];
      && |replies| == 2
      && replies[0].of == Truncated(answerQ) && replies[0].port == p.port
      && replies[1].of == Truncated(answerP) && replies[1].port == q.port
  {
    var s2 := Requests(cfg, r, e, p, q);
    PassWhole(cfg, r, s2, via, answerQ);
    var s3 := Forward(cfg, s2, via, answerQ);
    assert s3.queue == [q.port];
    PassWhole(cfg, r, s3, via, answerP);
    s := Forward(cfg, s3, via, answerP);
  }

  /** Two requests answered in the opposite order: each reply goes to the other's port. */
  lemma OvertakingMisroutes(cfg: Connection, e: Side, p: Datagram, q: Datagram,
                            via: Tid, answerP: Datagram, answerQ: Datagram) returns (s: State)
    requires cfg.Dynamic(e) && !cfg.Dynamic(Other(e)) && via.from == Other(e)
    requires Passable(cfg, Tid(Receiver, e), p) && Passable(cfg, Tid(Receiver, e), q)
    requires Passable(cfg, via, answerP) && Passable(cfg, via, answerQ)
    ensures Reachable(cfg, s) && Total(s) && s.starved == 0 && s.emitted[e] == [p, q]
    ensures var replies := s.sent[via];
      && |replies| == 2
      && replies[0].of == Truncated(answerQ) && replies[0].port == p.port
      && replies[1].of == Truncated(answerP) && replies[1].port == q.port
  {
    ReachableIsClosed(cfg);
    s := OvertakingIn(cfg, u => Reachable(cfg, u), e, p, q, via, answerP, answerQ);
  }

  lemma MixIn(cfg: Connection, r: State -> bool, e: Side, p: Datagram, q: Datagram) returns (s: State)
    requires Closed(cfg, r) && cfg.Dynamic(e) && cfg.Dynamic(Other(e))
    requires Passable(cfg, Tid(Receiver, e), p) && Passable(cfg, Tid(Receiver, e), q)
    ensures r(s) && Total(s) && s.popped == [p.port] && s.emitted[Other(e)] == []
    ensures var x := s.sent[Tid(Receiver, e)];
      |x| == 2 && x[1].ip == cfg.Ip(Other(e)) && x[1].port == p.port
  {
    var t := Tid(Receiver, e);
    var s1 := OneStored(cfg, r, e, p);
    PassWhole(cfg, r, s1, t, q);
    s := Forward(cfg, s1, t, q);
  }

  /** With two dynamic sides one queue mixes both: the second packet of `e` is forwarded to the
      other side at the port the first came from, which only `e` has ever used. */
  lemma BothDynamicMixesPorts(cfg: Connection, e: Side, p: Datagram, q: Datagram) returns (s: State)
    requires cfg.Dynamic(e) && cfg.Dynamic(Other(e))
    requires Passable(cfg, Tid(Receiver, e), p) && Passable(cfg, Tid(Receiver, e), q)
    ensures Reachable(cfg, s) && Total(s) && s.popped == [p.port] && s.emitted[Other(e)] == []
    ensures var x := s.sent[Tid(Receiver, e)];
      |x| == 2 && x[1].ip == cfg.Ip(Other(e)) && x[1].port == p.port
  {
    ReachableIsClosed(cfg);
    s := MixIn(cfg, u => Reachable(cfg, u), e, p, q);
  }

  ghost predicate PopsOnlyFrom(cfg: Connection, e: Side) {
    forall env, acts, p :: Legal(cfg, env, acts) && p in Run(cfg, env, acts).popped ==>
      SentFrom(Run(cfg, env, acts), e, p)
  }

  /** The ports taken from the queue are those of the dynamic side `e` in every run exactly if
      the other side is fixed. */
  lemma OneDynamicSideExactly(cfg: Connection, e: Side)
    requires cfg.Dynamic(e)
    ensures PopsOnlyFrom(cfg, e) <==> !cfg.Dynamic(Other(e))
  {
    if !cfg.Dynamic(Other(e)) {
      forall env, acts, p | Legal(cfg, env, acts) && p in Run(cfg, env, acts).popped
        ensures SentFrom(Run(cfg, env, acts), e, p)
      {
        OneDynamicSide(cfg, env, acts, e);
      }
    } else {
      var d := Datagram(0, [0], 0);
      var s := BothDynamicMixesPorts(cfg, Other(e), d, d);
      var acts :| Legal(cfg, Any, acts) && Run(cfg, Any, acts) == s;
      assert 0 in Run(cfg, Any, acts).popped && !SentFrom(s, e, 0);
    }
  }

  lemma EmptyIn(cfg: Connection, r: State -> bool, t: Tid, d: Datagram) returns (s: State)
    requires Closed(cfg, r) && Runs(cfg, t) && 0 <= d.port < 0x1_0000 && d.data == []
    ensures r(s) && Total(s) && s.pc[t].Closed? && s.emitted[t.from] == [d]
  {
    assert Enabled(cfg, Init(), Emit(t, d));
    var s1 := Apply(cfg, Init(), Emit(t, d));
    assert Enabled(cfg, s1, Receive(t, 0));
    s := Apply(cfg, s1, Receive(t, 0));
  }

  /** One empty datagram ends the thread that receives it. */
  lemma EmptyDatagramEnds(cfg: Connection, t: Tid, d: Datagram) returns (s: State)
    requires Runs(cfg, t) && 0 <= d.port < 0x1_0000 && d.data == []
    ensures Reachable(cfg, s) && Total(s) && s.pc[t].Closed? && s.emitted[t.from] == [d]
  {
    ReachableIsClosed(cfg);
    s := EmptyIn(cfg, u => Reachable(cfg, u), t, d);
  }
}
