/** Which traffic of a fixed endpoint keeps the queue of dynamic ports from running dry: the
    exact condition on what that endpoint does, whatever the proxy's threads and the network
    do meanwhile. */
module ProxyExchanges {
  import opened Base
  import opened Topology
  import opened ProxyMachine
  import opened ProxyTheorems
  import opened ProxyLimits

  /** What the endpoint opposite to the dynamic side `e` takes part in: it gets a packet that
      e's receive thread forwarded, or sends one to the socket of thread `to`. */
  datatype Event = Got | Says(to: Tid)

  function EventOf(a: Action, e: Side): (w: seq<Event>) {
    if a.Deliver? && a.t == Tid(Receiver, e) then [Got]
    else if a.Emit? && a.to.from == Other(e) then [Says(a.to)]
    else []
  }

  /** Its part of a run. */
  function Exchange(acts: seq<Action>, e: Side): (w: seq<Event>) {
    if acts == [] then [] else Exchange(acts[..|acts| - 1], e) + EventOf(acts[|acts| - 1], e)
  }

  function Gots(w: seq<Event>): (n: nat) {
    if w == [] then 0 else Gots(w[..|w| - 1]) + One(w[|w| - 1].Got?)
  }

  function Sayings(w: seq<Event>): (n: nat) {
    if w == [] then 0 else Sayings(w[..|w| - 1]) + One(w[|w| - 1].Says?)
  }

  /** At no moment has it sent more than `k` packets more than it has got. */
  ghost predicate Within(w: seq<Event>, k: nat) {
    forall n :: 0 <= n <= |w| ==> Sayings(w[..n]) <= Gots(w[..n]) + k
  }

  lemma EventsAppend(w: seq<Event>, x: Event)
    ensures Gots(w + [x]) == Gots(w) + One(x.Got?) && Sayings(w + [x]) == Sayings(w) + One(x.Says?)
  {
    assert (w + [x])[..|w|] == w;
  }

  lemma WithinAppend(w: seq<Event>, x: Event, k: nat)
    ensures Within(w + [x], k) <==> Within(w, k) && Sayings(w + [x]) <= Gots(w + [x]) + k
  {
    assert (w + [x])[..|w| + 1] == w + [x];
    assert forall n :: 0 <= n <= |w| ==> (w + [x])[..n] == w[..n];
  }

  // ---------------------------------------------------------------- balanced traffic is safe

  lemma CountStep(cfg: Connection, s: State, a: Action, e: Side)
    requires Total(s) && Enabled(cfg, s, a)
    ensures var s', rd := Apply(cfg, s, a), Tid(Receiver, e);
      && |s'.emitted[Other(e)]| == |s.emitted[Other(e)]| + One(a.Emit? && a.to.from == Other(e))
      && |s'.delivered[rd]| == |s.delivered[rd]| + One(a.Deliver? && a.t == rd)
  {
  }

  /** A run in which the endpoint keeps within what it gets is one of `Answering`. */
  lemma {:induction false} KeepsToAnswering(cfg: Connection, acts: seq<Action>, e: Side)
    requires Legal(cfg, Any, acts) && Within(Exchange(acts, e), 0)
    ensures Legal(cfg, Answering(e), acts) && Run(cfg, Answering(e), acts) == Run(cfg, Any, acts)
    ensures |Run(cfg, Any, acts).emitted[Other(e)]| == Sayings(Exchange(acts, e))
    ensures |Run(cfg, Any, acts).delivered[Tid(Receiver, e)]| == Gots(Exchange(acts, e))
  {
    if acts != [] {
      var front, last := acts[..|acts| - 1], acts[|acts| - 1];
      var w, x := Exchange(front, e), EventOf(last, e);
      if x == [] {
        assert w + x == w;
      } else {
        assert w + x == w + [x[0]];
        EventsAppend(w, x[0]);
        WithinAppend(w, x[0], 0);
      }
      KeepsToAnswering(cfg, front, e);
      CountStep(cfg, Run(cfg, Any, front), last, e);
    }
  }

  // ---------------------------------------------------------------- any other traffic can starve the queue

  /** Some run with the exchange `w` ends in `s`. */
  ghost predicate Shows(cfg: Connection, e: Side, w: seq<Event>, s: State) {
    exists acts :: Legal(cfg, Any, acts) && Exchange(acts, e) == w && Run(cfg, Any, acts) == s
  }

  lemma ShowsNext(cfg: Connection, e: Side, w: seq<Event>, s: State, a: Action)
    requires Shows(cfg, e, w, s) && Total(s) && Enabled(cfg, s, a)
    ensures Shows(cfg, e, w + EventOf(a, e), Apply(cfg, s, a))
  {
    var acts :| Legal(cfg, Any, acts) && Exchange(acts, e) == w && Run(cfg, Any, acts) == s;
    Extend(cfg, acts, a);
    assert (acts + [a])[..|acts + [a]| - 1] == acts;
  }

  lemma ShowsIsClosed(cfg: Connection, e: Side, w: seq<Event>)
    ensures ClosedUnderWork(cfg, s => Shows(cfg, e, w, s))
  {
    forall s, a | Total(s) && Shows(cfg, e, w, s) && Works(a) && Enabled(cfg, s, a)
      ensures Shows(cfg, e, w, Apply(cfg, s, a))
    {
      ShowsNext(cfg, e, w, s, a);
      assert w + EventOf(a, e) == w;
    }
  }

  const PACKET := Datagram(0, [0], 0)

  /** One packet is emitted and forwarded at once. */
  lemma PassAtOnce(cfg: Connection, e: Side, w: seq<Event>, s: State, t: Tid)
    requires Shows(cfg, e, w, s) && Calm(s) && Runs(cfg, t)
    ensures Shows(cfg, e, w + EventOf(Emit(t, PACKET), e), Forward(cfg, s, t, PACKET))
    ensures Calm(Forward(cfg, s, t, PACKET))
  {
    var w' := w + EventOf(Emit(t, PACKET), e);
    assert Enabled(cfg, s, Emit(t, PACKET));
    ShowsNext(cfg, e, w, s, Emit(t, PACKET));
    ShowsIsClosed(cfg, e, w');
    PassFrom(cfg, u => Shows(cfg, e, w', u), s, t, PACKET);
  }

  /** A packet from `e` is forwarded and delivered at once. */
  lemma DeliverAtOnce(cfg: Connection, e: Side, w: seq<Event>, s: State) returns (s': State)
    requires Shows(cfg, e, w, s) && Calm(s) && cfg.Dynamic(e) && !cfg.Dynamic(Other(e))
    ensures Shows(cfg, e, w + [Got], s') && Calm(s')
    ensures |s'.queue| == |s.queue| + 1 && s'.starved == s.starved
  {
    var rd := Tid(Receiver, e);
    PassAtOnce(cfg, e, w, s, rd);
    assert w + EventOf(Emit(rd, PACKET), e) == w;
    StoresOne(cfg, e, s);
    s' := DeliverLast(cfg, e, w, Forward(cfg, s, rd, PACKET));
  }

  lemma DeliverLast(cfg: Connection, e: Side, w: seq<Event>, s: State) returns (s': State)
    requires Shows(cfg, e, w, s) && Calm(s) && s.outbound[Tid(Receiver, e)] != []
    ensures Shows(cfg, e, w + [Got], s') && Calm(s')
    ensures s'.queue == s.queue && s'.starved == s.starved
  {
    var a := Deliver(Tid(Receiver, e), |s.outbound[Tid(Receiver, e)]| - 1);
    assert Enabled(cfg, s, a);
    ShowsNext(cfg, e, w, s, a);
    s' := Apply(cfg, s, a);
  }

  lemma StoresOne(cfg: Connection, e: Side, s: State)
    requires Calm(s) && cfg.Dynamic(e) && !cfg.Dynamic(Other(e))
    ensures var f := Forward(cfg, s, Tid(Receiver, e), PACKET);
      |f.queue| == |s.queue| + 1 && f.starved == s.starved && f.outbound[Tid(Receiver, e)] != []
  {
  }

  lemma SayAtOnce(cfg: Connection, e: Side, w: seq<Event>, s: State, t: Tid) returns (s': State)
    requires Shows(cfg, e, w, s) && Calm(s) && cfg.Dynamic(e) && t.from == Other(e)
    ensures Shows(cfg, e, w + [Says(t)], s') && Calm(s')
    ensures |s'.queue| >= |s.queue| - 1 && s'.starved == s.starved + One(s.queue == [])
    ensures !cfg.Dynamic(Other(e)) && s.queue != [] ==> |s'.queue| == |s.queue| - 1
  {
    PassAtOnce(cfg, e, w, s, t);
    s' := Forward(cfg, s, t, PACKET);
  }

  ghost predicate Possible(w: seq<Event>, e: Side) {
    forall i :: 0 <= i < |w| && w[i].Says? ==> w[i].to.from == Other(e)
  }

  ghost predicate Tally(w: seq<Event>, starved: nat, queued: nat) {
    && (starved == 0 <==> Within(w, 0))
    && (starved == 0 ==> queued + Sayings(w) == Gots(w))
  }

  lemma TallyNext(w: seq<Event>, x: Event, starved: nat, queued: nat, starved': nat, queued': nat)
    requires Tally(w, starved, queued)
    requires x.Got? ==> starved' == starved && queued' == queued + 1
    requires x.Says? ==> starved' == starved + One(queued == 0) && (queued > 0 ==> queued' == queued - 1)
    ensures Tally(w + [x], starved', queued')
  {
    EventsAppend(w, x);
    WithinAppend(w, x, 0);
  }

  /** A state reached by going through `w` one packet at a time: the queue holds what was got
      and not yet answered. */
  ghost predicate Serial(cfg: Connection, e: Side, w: seq<Event>, s: State) {
    Shows(cfg, e, w, s) && Calm(s) && Tally(w, s.starved, |s.queue|)
  }

  lemma SerialStart(cfg: Connection, e: Side, w: seq<Event>)
    requires w == []
    ensures Serial(cfg, e, w, Init())
  {
    var acts: seq<Action> := [];
    assert Legal(cfg, Any, acts) && Exchange(acts, e) == w && Run(cfg, Any, acts) == Init();
    assert Shows(cfg, e, w, Init()) && Calm(Init());
    assert w[..0] == w && Within(w, 0);
    assert Tally(w, Init().starved, |Init().queue|);
  }

  lemma SerialNext(cfg: Connection, e: Side, w: seq<Event>, s: State, x: Event, w': seq<Event>) returns (s': State)
    requires Serial(cfg, e, w, s) && cfg.Dynamic(e) && !cfg.Dynamic(Other(e))
    requires w' == w + [x] && (x.Says? ==> x.to.from == Other(e))
    ensures Serial(cfg, e, w', s')
  {
    if x.Got? {
      s' := DeliverAtOnce(cfg, e, w, s);
    } else {
      s' := SayAtOnce(cfg, e, w, s, x.to);
    }
    TallyNext(w, x, s.starved, |s.queue|, s'.starved, |s'.queue|);
    assert Shows(cfg, e, w', s') && Tally(w', s'.starved, |s'.queue|);
  }

  /** Every exchange can be gone through like that. */
  lemma {:induction false} Serially(cfg: Connection, e: Side, w: seq<Event>) returns (s: State)
    requires cfg.Dynamic(e) && !cfg.Dynamic(Other(e)) && Possible(w, e)
    ensures Serial(cfg, e, w, s)
  {
    if w == [] {
      s := Init();
      SerialStart(cfg, e, w);
    } else {
      var front, x := w[..|w| - 1], w[|w| - 1];
      assert w == front + [x];
      var s0 := Serially(cfg, e, front);
      s := SerialNext(cfg, e, front, s0, x, w);
    }
  }

  // ---------------------------------------------------------------- the exact condition

  /** No run in which the endpoint's part is `w` finds the queue empty. */
  ghost predicate Safe(cfg: Connection, e: Side, w: seq<Event>) {
    forall acts :: Legal(cfg, Any, acts) && Exchange(acts, e) == w ==> Run(cfg, Any, acts).starved == 0
  }

  /** What the fixed endpoint does decides: as long as it never sends more packets than it has
      got from e's receive thread, no schedule, loss or reordering starves the queue; as soon
      as it does, some schedule starves it. */
  lemma SafeExactly(cfg: Connection, e: Side, w: seq<Event>)
    requires cfg.Dynamic(e) && !cfg.Dynamic(Other(e)) && Possible(w, e)
    ensures Safe(cfg, e, w) <==> Within(w, 0)
  {
    if Within(w, 0) {
      forall acts | Legal(cfg, Any, acts) && Exchange(acts, e) == w
        ensures Run(cfg, Any, acts).starved == 0
      {
        KeepsToAnswering(cfg, acts, e);
        NoStarvation(cfg, acts, e);
      }
    } else {
      var s := Serially(cfg, e, w);
      var acts :| Legal(cfg, Any, acts) && Exchange(acts, e) == w && Run(cfg, Any, acts) == s;
    }
  }

  /** An endpoint may send `k` packets ahead of what it gets exactly if k is 0. */
  lemma NothingAhead(cfg: Connection, e: Side, k: nat)
    requires cfg.Dynamic(e) && !cfg.Dynamic(Other(e))
    ensures (forall w :: Possible(w, e) && Within(w, k) ==> Safe(cfg, e, w)) <==> k == 0
  {
    if k == 0 {
      forall w | Possible(w, e) && Within(w, k)
        ensures Safe(cfg, e, w)
      {
        SafeExactly(cfg, e, w);
      }
    } else {
      var w := [Says(Tid(Sender, Other(e)))];
      EventsAppend([], w[0]);
      WithinAppend([], w[0], 0);
      WithinAppend([], w[0], k);
      assert [] + w == w;
      SafeExactly(cfg, e, w);
    }
  }
}
