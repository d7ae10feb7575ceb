/** Which port a reply goes to, when a dynamic client talks to a fixed server: replies take the
    stored ports in the order in which the threads ask for them, and if the server answers in
    order, that is the port of the request each one answers. */
module ProxyReplies {
  import opened Base
  import opened Topology
  import opened ProxyMachine
  import opened ProxyTheorems

  // ---------------------------------------------------------------- the n-th port asked for is the n-th stored

  /** The place of each packet of thread `t` among all packets that ask for a port of `e`, in
      both threads that read from the other side. */
  function Turns(acts: seq<Action>, t: Tid, e: Side): (r: seq<nat>) {
    if acts == [] then []
    else
      var front := acts[..|acts| - 1];
      Turns(front, t, e) + (if acts[|acts| - 1] == Choose(t) then [Taken(front, e)] else [])
  }

  /** A reply that has taken its port but has not been sent yet. */
  predicate Routed(pc: Pc) { pc.Targeted? || pc.Ready? || pc.Fuzzed? }

  ghost predicate InTurn(s: State, t: Tid, turns: seq<nat>)
    requires Total(s)
  {
    var n := |s.sent[t]|;
    && |turns| == n + One(Routed(s.pc[t]))
    && (forall k :: 0 <= k < |turns| ==> turns[k] < |s.pushed|)
    && (forall k :: 0 <= k < n ==> s.sent[t][k].port == WirePort(s.pushed[turns[k]].port))
    && (Routed(s.pc[t]) ==> s.pc[t].target == s.pushed[turns[n]].port)
  }

  lemma InTurnStep(cfg: Connection, s: State, a: Action, e: Side, t: Tid, turns: seq<nat>)
    requires Total(s) && Enabled(cfg, s, a) && QueueInv(s) && InTurn(s, t, turns)
    requires cfg.Dynamic(e) && t.from == Other(e) && Apply(cfg, s, a).starved == 0
    ensures InTurn(Apply(cfg, s, a), t, turns + if a == Choose(t) then [|s.popped|] else [])
  {
    assert turns + [] == turns;
    match a
    case Choose(u) =>
      if u == t {
        InTurnChoose(cfg, s, e, t, turns);
      } else {
        InTurnSame(s, ApplyChoose(cfg, s, u), t, turns);
      }
    case Transmit(u, ok) => InTurnTransmit(cfg, s, u, ok, t, turns);
    case Store(u) => InTurnStore(cfg, s, u, t, turns);
    case Mutate(u, _) => InTurnSame(s, Apply(cfg, s, a), t, turns);
    case _ => InTurnSame(s, Apply(cfg, s, a), t, turns);
  }

  /** A step that does not send for `t`, nor move it past taking its port. */
  lemma InTurnSame(s: State, s': State, t: Tid, turns: seq<nat>)
    requires Total(s) && Total(s') && InTurn(s, t, turns) && s'.sent[t] == s.sent[t] && s'.pushed == s.pushed
    requires Routed(s'.pc[t]) <==> Routed(s.pc[t])
    requires Routed(s.pc[t]) ==> s'.pc[t].target == s.pc[t].target
    ensures InTurn(s', t, turns)
  {
  }

  lemma InTurnChoose(cfg: Connection, s: State, e: Side, t: Tid, turns: seq<nat>)
    requires Total(s) && s.pc[t].Received? && QueueInv(s) && InTurn(s, t, turns)
    requires cfg.Dynamic(e) && t.from == Other(e) && ApplyChoose(cfg, s, t).starved == 0
    ensures InTurn(ApplyChoose(cfg, s, t), t, turns + [|s.popped|])
  {
    assert Other(t.from) == e && s.queue != [];
    assert (s.popped + s.queue)[|s.popped|] == s.pushed[|s.popped|].port;
  }

  lemma InTurnStore(cfg: Connection, s: State, u: Tid, t: Tid, turns: seq<nat>)
    requires Total(s) && s.pc[u].Targeted? && InTurn(s, t, turns)
    ensures InTurn(ApplyStore(cfg, s, u), t, turns)
  {
  }

  lemma InTurnTransmit(cfg: Connection, s: State, u: Tid, ok: bool, t: Tid, turns: seq<nat>)
    requires Total(s) && s.pc[u].Fuzzed? && InTurn(s, t, turns)
    ensures InTurn(ApplyTransmit(cfg, s, u, ok), t, turns)
  {
  }

  lemma {:induction false} InTurnHolds(cfg: Connection, env: Environment, acts: seq<Action>, e: Side, t: Tid)
    requires Legal(cfg, env, acts) && t.from == Other(e)
    requires cfg.Dynamic(e) && !cfg.Dynamic(Other(e)) && Run(cfg, env, acts).starved == 0
    ensures InTurn(Run(cfg, env, acts), t, Turns(acts, t, e))
  {
    if acts != [] {
      var front, last := acts[..|acts| - 1], acts[|acts| - 1];
      Grows(cfg, Run(cfg, env, front), last);
      InTurnHolds(cfg, env, front, e, t);
      QueueHistory(cfg, env, front);
      CountsHold(cfg, env, front, e);
      InTurnStep(cfg, Run(cfg, env, front), last, e, t, Turns(front, t, e));
    }
  }

  /** Without any assumption on order, and whichever threads ask: as long as the queue has
      sufficed, the packet that was n-th to ask for a port is sent to the n-th stored port. So
      it reaches the sender of a request exactly if that port is the request's. */
  lemma ReplyPortExactly(cfg: Connection, env: Environment, acts: seq<Action>, e: Side, t: Tid)
    requires Legal(cfg, env, acts) && t.from == Other(e)
    requires cfg.Dynamic(e) && !cfg.Dynamic(Other(e)) && Covered(acts, e)
    ensures var s, turns := Run(cfg, env, acts), Turns(acts, t, e);
      && |turns| >= |s.sent[t]|
      && forall k :: 0 <= k < |s.sent[t]| ==> turns[k] < |s.pushed| && Reaches(cfg, s, e, s.sent[t][k], turns[k])
  {
    var s, turns := Run(cfg, env, acts), Turns(acts, t, e);
    StarvesExactly(cfg, env, acts, e);
    InTurnHolds(cfg, env, acts, e, t);
    ProvenanceHolds(cfg, env, acts);
    forall k | 0 <= k < |s.sent[t]|
      ensures turns[k] < |s.pushed| && Reaches(cfg, s, e, s.sent[t][k], turns[k])
    {
      assert SentOk(cfg, s, t, s.sent[t][k]);
      StoredPort(cfg, s, s.pushed[turns[k]]);
    }
  }

  /** Of the requests of `e`, transmission `x` reaches exactly those sent from the n-th stored
      port. */
  ghost predicate Reaches(cfg: Connection, s: State, e: Side, x: Transmission, n: nat)
    requires Total(s) && n < |s.pushed|
  {
    x.ip == cfg.Ip(e) && forall g :: g in s.emitted[e] ==> (x.port == g.port <==> s.pushed[n].port == g.port)
  }

  /** No place is given twice. */
  lemma {:induction false} TurnsDiffer(acts: seq<Action>, e: Side, t: Tid, u: Tid, k: nat, l: nat)
    requires t.from == u.from == Other(e) && k < |Turns(acts, t, e)| && l < |Turns(acts, u, e)|
    ensures Turns(acts, t, e)[k] < Taken(acts, e)
    ensures Turns(acts, t, e)[k] == Turns(acts, u, e)[l] <==> t == u && k == l
    decreases acts
  {
    var front := acts[..|acts| - 1];
    if k < |Turns(front, t, e)| && l < |Turns(front, u, e)| {
      TurnsDiffer(front, e, t, u, k, l);
    } else if k < |Turns(front, t, e)| {
      TurnsDiffer(front, e, t, t, k, k);
    } else if l < |Turns(front, u, e)| {
      TurnsDiffer(front, e, u, u, l, l);
    }
  }

  /** Of the threads that read from via's endpoint only `via` gets packets to forward. */
  ghost predicate TakenOnlyBy(acts: seq<Action>, via: Tid) {
    forall i :: 0 <= i < |acts| && acts[i].Choose? && acts[i].t.from == via.from ==> acts[i].t == via
  }

  lemma {:induction false} TurnsAlone(acts: seq<Action>, via: Tid, e: Side)
    requires TakenOnlyBy(acts, via) && via.from == Other(e)
    ensures |Turns(acts, via, e)| == Taken(acts, e)
    ensures forall k :: 0 <= k < |Turns(acts, via, e)| ==> Turns(acts, via, e)[k] == k
  {
    if acts != [] {
      var front, last := acts[..|acts| - 1], acts[|acts| - 1];
      assert forall i :: 0 <= i < |front| ==> front[i] == acts[i];
      TurnsAlone(front, via, e);
      assert acts[|acts| - 1] == last;
    }
  }

  lemma StoredPort(cfg: Connection, s: State, d: Datagram)
    requires Total(s) && Provenance(cfg, s) && d in s.pushed
    ensures WirePort(d.port) == d.port
  {
    assert StoredOk(cfg, s, d);
  }

  // ---------------------------------------------------------------- answers in order

  function Tags(ds: seq<Datagram>): (r: seq<nat>) {
    seq(|ds|, i requires 0 <= i < |ds| => ds[i].tag)
  }

  function OutTags(xs: seq<Transmission>): (r: seq<nat>) {
    seq(|xs|, i requires 0 <= i < |xs| => xs[i].of.tag)
  }

  /** A stored request still in the hand of the thread that stored it. */
  function Stored(pc: Pc): (r: seq<nat>) {
    if pc.Ready? || pc.Fuzzed? then [pc.d.tag] else []
  }

  /** A reply that has been received but has not taken its port yet. */
  function Waiting(pc: Pc): (r: seq<nat>) {
    if pc.Received? then [pc.d.tag] else []
  }

  ghost function Pending(s: State, e: Side): (r: seq<nat>)
    requires Total(s) && |s.emitted[Other(e)]| <= |s.delivered[Tid(Receiver, e)]|
  {
    s.delivered[Tid(Receiver, e)][|s.emitted[Other(e)]|..]
  }

  /** The request numbers on their way between "stored" and "port taken", oldest first:
      replies in the hand of the reply thread, replies in flight, requests the server has
      still to answer, requests in flight, requests in the hand of the receive thread. */
  ghost function Pipeline(s: State, e: Side, via: Tid): (r: seq<nat>)
    requires Total(s) && |s.emitted[Other(e)]| <= |s.delivered[Tid(Receiver, e)]|
  {
    var rd := Tid(Receiver, e);
    Waiting(s.pc[via]) + Tags(s.inbound[via]) + Pending(s, e)
    + OutTags(s.outbound[rd]) + Stored(s.pc[rd])
  }

  ghost predicate Matched(s: State, via: Tid)
    requires Total(s)
  {
    var n := |s.sent[via]|;
    && |s.popped| == n + One(Routed(s.pc[via])) <= |s.pushed|
    && (forall k :: 0 <= k < n ==> s.sent[via][k].of.tag == s.pushed[k].tag)
    && (Routed(s.pc[via]) ==> s.pc[via].d.tag == s.pushed[n].tag)
  }

  ghost predicate Quiet(s: State, e: Side, via: Tid)
    requires Total(s)
  {
    forall t: Tid :: t.from == Other(e) && t != via ==>
      s.inbound[t] == [] && (s.pc[t].Idle? || s.pc[t].Closed?)
  }

  ghost predicate Aligned(s: State, e: Side, via: Tid)
    requires Total(s)
  {
    && s.starved == 0
    && (forall i :: 0 <= i < |s.emitted[e]| ==> s.emitted[e][i].tag == i)
    && |s.emitted[Other(e)]| <= |s.delivered[Tid(Receiver, e)]|
    && Quiet(s, e, via)
    && Matched(s, via)
    && (!s.pc[via].Closed? ==> Pipeline(s, e, via) == Tags(s.pushed[|s.popped|..]))
  }

  /** The reply in hand answers the oldest request whose port is still queued. */
  lemma HeadOfPipeline(s: State, e: Side, via: Tid)
    requires Total(s) && QueueInv(s) && Aligned(s, e, via) && s.pc[via].Received?
    ensures var n := |s.popped|;
      && n < |s.pushed| && s.queue != []
      && s.pc[via].d.tag == s.pushed[n].tag
      && Pipeline(s, e, via)[1..] == Tags(s.pushed[n + 1..])
  {
    var n := |s.popped|;
    var rest := Tags(s.pushed[n..]);
    assert Pipeline(s, e, via)[0] == s.pc[via].d.tag;
    assert rest[0] == s.pushed[n].tag;
    assert |s.popped + s.queue| == |s.pushed|;
    assert Tags(s.pushed[n + 1..]) == rest[1..];
  }

  lemma AlignedChoose(cfg: Connection, s: State, t: Tid, e: Side, via: Tid)
    requires Total(s) && s.pc[t].Received? && QueueInv(s)
    requires cfg.Dynamic(e) && !cfg.Dynamic(Other(e)) && via.from == Other(e)
    requires Aligned(s, e, via)
    ensures Aligned(ApplyChoose(cfg, s, t), e, via)
  {
    FourThreads(t, e);
    if t == via {
      AlignedPop(cfg, s, e, via);
    } else {
      AlignedNoPop(cfg, s, t, e, via);
    }
  }

  lemma AlignedPop(cfg: Connection, s: State, e: Side, via: Tid)
    requires Total(s) && s.pc[via].Received? && QueueInv(s)
    requires cfg.Dynamic(e) && via.from == Other(e) && Aligned(s, e, via)
    ensures Aligned(ApplyChoose(cfg, s, via), e, via)
  {
    HeadOfPipeline(s, e, via);
    assert Other(via.from) == e;
    var d := s.pc[via].d;
    var s' := s.(queue := s.queue[1..], popped := s.popped + [s.queue[0]], pc := s.pc[via := Targeted(d, s.queue[0])]);
    assert s' == ApplyChoose(cfg, s, via);
    PipelinePop(s, s', e, via);
  }

  lemma PipelinePop(s: State, s': State, e: Side, via: Tid)
    requires Total(s) && Total(s') && s.pc[via].Received? && via.from == Other(e)
    requires |s.emitted[Other(e)]| <= |s.delivered[Tid(Receiver, e)]|
    requires s' == s.(queue := s'.queue, popped := s'.popped, pc := s'.pc)
    requires s'.pc == s.pc[via := s'.pc[via]] && s'.pc[via].Targeted?
    ensures Pipeline(s', e, via) == Pipeline(s, e, via)[1..]
  {
  }

  lemma AlignedNoPop(cfg: Connection, s: State, t: Tid, e: Side, via: Tid)
    requires Total(s) && s.pc[t].Received? && t.from == e && !cfg.Dynamic(Other(e))
    requires via.from == Other(e) && Aligned(s, e, via)
    ensures Aligned(ApplyChoose(cfg, s, t), e, via)
  {
  }

  lemma AlignedStore(cfg: Connection, s: State, t: Tid, e: Side, via: Tid)
    requires Total(s) && s.pc[t].Targeted?
    requires cfg.Dynamic(e) && !cfg.Dynamic(Other(e)) && via.from == Other(e)
    requires Aligned(s, e, via)
    ensures Aligned(ApplyStore(cfg, s, t), e, via)
  {
    var s' := ApplyStore(cfg, s, t);
    var rd := Tid(Receiver, e);
    var n := |s.popped|;
    FourThreads(t, e);
    if t == rd {
      var d := s.pc[t].d;
      assert Stored(s'.pc[rd]) == [d.tag] && Stored(s.pc[rd]) == [];
      assert Pipeline(s', e, via) == Pipeline(s, e, via) + [d.tag];
      assert s'.pushed[n..] == s.pushed[n..] + [d];
      assert Tags(s'.pushed[n..]) == Tags(s.pushed[n..]) + [d.tag];
    } else {
      assert s'.pushed == s.pushed;
      assert Pipeline(s', e, via) == Pipeline(s, e, via);
    }
  }

  lemma AlignedTransmit(cfg: Connection, s: State, t: Tid, ok: bool, e: Side, via: Tid)
    requires Total(s) && Enabled(cfg, s, Transmit(t, ok)) && Allowed(InOrder(e, via), s, Transmit(t, ok))
    requires via.from == Other(e) && Aligned(s, e, via)
    ensures Aligned(ApplyTransmit(cfg, s, t, ok), e, via)
  {
    var s' := ApplyTransmit(cfg, s, t, ok);
    var rd := Tid(Receiver, e);
    if t == rd && ok {
      assert OutTags(s'.outbound[rd]) == OutTags(s.outbound[rd]) + [s.pc[rd].d.tag];
      assert Pipeline(s', e, via) == Pipeline(s, e, via);
    } else if t != rd {
      assert s'.outbound[rd] == s.outbound[rd];
      assert Pipeline(s', e, via) == Pipeline(s, e, via);
    }
  }

  lemma AlignedEmit(cfg: Connection, s: State, t: Tid, d: Datagram, e: Side, via: Tid)
    requires Total(s) && Enabled(cfg, s, Emit(t, d)) && Allowed(InOrder(e, via), s, Emit(t, d))
    requires via.from == Other(e) && Aligned(s, e, via)
    ensures Aligned(Apply(cfg, s, Emit(t, d)), e, via)
  {
    var s' := Apply(cfg, s, Emit(t, d));
    FourThreads(t, e);
    if t.from != e {
      assert Tags(s'.inbound[via]) == Tags(s.inbound[via]) + [d.tag];
      assert [d.tag] + Pending(s', e) == Pending(s, e);
    }
    assert Pipeline(s', e, via) == Pipeline(s, e, via);
  }

  lemma AlignedReply(cfg: Connection, s: State, e: Side, via: Tid)
    requires Total(s) && Enabled(cfg, s, Receive(via, 0)) && via.from == Other(e) && Aligned(s, e, via)
    ensures Aligned(Apply(cfg, s, Receive(via, 0)), e, via)
  {
    var s' := Apply(cfg, s, Receive(via, 0));
    if !s'.pc[via].Closed? {
      assert Waiting(s'.pc[via]) + Tags(s'.inbound[via]) == Tags(s.inbound[via]);
      assert Pipeline(s', e, via) == Pipeline(s, e, via);
    }
  }

  lemma AlignedReceive(cfg: Connection, s: State, t: Tid, i: nat, e: Side, via: Tid)
    requires Total(s) && Enabled(cfg, s, Receive(t, i)) && Allowed(InOrder(e, via), s, Receive(t, i))
    requires via.from == Other(e) && Aligned(s, e, via)
    ensures Aligned(Apply(cfg, s, Receive(t, i)), e, via)
  {
    if t == via {
      AlignedReply(cfg, s, e, via);
    } else {
      var s' := Apply(cfg, s, Receive(t, i));
      FourThreads(t, e);
      assert s'.inbound[via] == s.inbound[via] && s'.pc[via] == s.pc[via];
      assert Pipeline(s', e, via) == Pipeline(s, e, via);
    }
  }

  lemma AlignedDeliver(cfg: Connection, s: State, t: Tid, i: nat, e: Side, via: Tid)
    requires Total(s) && Enabled(cfg, s, Deliver(t, i)) && Allowed(InOrder(e, via), s, Deliver(t, i))
    requires via.from == Other(e) && Aligned(s, e, via)
    ensures Aligned(Apply(cfg, s, Deliver(t, i)), e, via)
  {
    var s' := Apply(cfg, s, Deliver(t, i));
    var rd := Tid(Receiver, e);
    if t == rd {
      assert Pending(s', e) == Pending(s, e) + [s.outbound[rd][0].of.tag];
      assert [s.outbound[rd][0].of.tag] + OutTags(s'.outbound[rd]) == OutTags(s.outbound[rd]);
    }
    assert Pipeline(s', e, via) == Pipeline(s, e, via);
  }

  lemma AlignedOther(cfg: Connection, s: State, a: Action, e: Side, via: Tid)
    requires Total(s) && Enabled(cfg, s, a) && Allowed(InOrder(e, via), s, a)
    requires a.Fail? || a.Mutate? || a.LoseIn? || a.LoseOut?
    requires via.from == Other(e) && Aligned(s, e, via)
    ensures Aligned(Apply(cfg, s, a), e, via)
  {
    assert Pipeline(Apply(cfg, s, a), e, via) == Pipeline(s, e, via);
  }

  lemma AlignedStep(cfg: Connection, s: State, a: Action, e: Side, via: Tid)
    requires Total(s) && Enabled(cfg, s, a) && Allowed(InOrder(e, via), s, a) && QueueInv(s)
    requires cfg.Dynamic(e) && !cfg.Dynamic(Other(e)) && via.from == Other(e)
    requires Aligned(s, e, via)
    ensures Aligned(Apply(cfg, s, a), e, via)
  {
    match a
    case Choose(t) => AlignedChoose(cfg, s, t, e, via);
    case Store(t) => AlignedStore(cfg, s, t, e, via);
    case Transmit(t, ok) => AlignedTransmit(cfg, s, t, ok, e, via);
    case Emit(t, d) => AlignedEmit(cfg, s, t, d, e, via);
    case Receive(t, i) => AlignedReceive(cfg, s, t, i, e, via);
    case Deliver(t, i) => AlignedDeliver(cfg, s, t, i, e, via);
    case _ => AlignedOther(cfg, s, a, e, via);
  }

  lemma OnlyViaTakes(cfg: Connection, s: State, a: Action, e: Side, via: Tid)
    requires Total(s) && Enabled(cfg, s, a) && Aligned(s, e, via)
    ensures a.Choose? && a.t.from == Other(e) ==> a.t == via
  {
  }

  lemma TakenNext(acts: seq<Action>, via: Tid)
    requires acts != [] && TakenOnlyBy(acts[..|acts| - 1], via)
    requires var a := acts[|acts| - 1]; a.Choose? && a.t.from == via.from ==> a.t == via
    ensures TakenOnlyBy(acts, via)
  {
    forall i | 0 <= i < |acts| && acts[i].Choose? && acts[i].t.from == via.from
      ensures acts[i].t == via
    {
      if i < |acts| - 1 {
        assert acts[..|acts| - 1][i] == acts[i];
      }
    }
  }

  lemma {:induction false} AlignedHolds(cfg: Connection, acts: seq<Action>, e: Side, via: Tid)
    requires Legal(cfg, InOrder(e, via), acts) && via.from == Other(e)
    requires cfg.Dynamic(e) && !cfg.Dynamic(Other(e))
    ensures Aligned(Run(cfg, InOrder(e, via), acts), e, via) && TakenOnlyBy(acts, via)
  {
    if acts != [] {
      var front := acts[..|acts| - 1];
      AlignedHolds(cfg, front, e, via);
      QueueHistory(cfg, InOrder(e, via), front);
      AlignedStep(cfg, Run(cfg, InOrder(e, via), front), acts[|acts| - 1], e, via);
      OnlyViaTakes(cfg, Run(cfg, InOrder(e, via), front), acts[|acts| - 1], e, via);
      TakenNext(acts, via);
    } else {
      assert Pipeline(Init(), e, via) == [] == Tags(Init().pushed[0..]);
    }
  }

  /** `x` answers request number `x.of.tag` and goes to the port that request came from. */
  ghost predicate Answers(cfg: Connection, s: State, e: Side, x: Transmission)
    requires Total(s)
  {
    && x.of.tag < |s.emitted[e]|
    && x.ip == cfg.Ip(e)
    && x.port == s.emitted[e][x.of.tag].port
  }

  /** In every interleaving each reply leaves for the source port of the request it answers,
      and the k-th reply answers the k-th request whose port was stored. */
  lemma RepliesReachTheirRequests(cfg: Connection, acts: seq<Action>, e: Side, via: Tid)
    requires Legal(cfg, InOrder(e, via), acts) && via.from == Other(e)
    requires cfg.Dynamic(e) && !cfg.Dynamic(Other(e))
    ensures var s := Run(cfg, InOrder(e, via), acts);
      && |s.sent[via]| <= |s.pushed|
      && forall k :: 0 <= k < |s.sent[via]| ==>
           s.sent[via][k].of.tag == s.pushed[k].tag && Answers(cfg, s, e, s.sent[via][k])
  {
    var s := Run(cfg, InOrder(e, via), acts);
    AlignedHolds(cfg, acts, e, via);
    StarvesExactly(cfg, InOrder(e, via), acts, e);
    ProvenanceHolds(cfg, InOrder(e, via), acts);
    ReplyPortExactly(cfg, InOrder(e, via), acts, e, via);
    TurnsAlone(acts, via, e);
    forall k | 0 <= k < |s.sent[via]|
      ensures Answers(cfg, s, e, s.sent[via][k])
    {
      assert Reaches(cfg, s, e, s.sent[via][k], Turns(acts, via, e)[k]);
      StoredRequest(cfg, s, e, via, k);
    }
  }

  lemma StoredRequest(cfg: Connection, s: State, e: Side, via: Tid, k: nat)
    requires Total(s) && Aligned(s, e, via) && Provenance(cfg, s) && k < |s.pushed|
    requires cfg.Dynamic(e) && !cfg.Dynamic(Other(e))
    ensures s.pushed[k].tag < |s.emitted[e]| && s.emitted[e][s.pushed[k].tag].port == s.pushed[k].port
    ensures s.emitted[e][s.pushed[k].tag] in s.emitted[e]
  {
    assert s.pushed[k] in s.pushed && StoredOk(cfg, s, s.pushed[k]);
    var g :| g in s.emitted[e] && s.pushed[k] == Truncated(g);
  }
}
