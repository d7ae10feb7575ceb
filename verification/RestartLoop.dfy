/** Restarting kills the healthy processes too, and their monitors report a CRASH for each: as
    soon as the clients together run two entities, one real crash can make the launchers
    restart everything again and again. */
module RestartLoop {
  import opened Base
  import opened RestartProtocol
  import opened RestartTheorems
  import opened RestartSettles
  import L = Launchers

  /** A set of states that holds the initial state and is closed under steps. */
  ghost predicate Closed(r: State -> bool) {
    r(Init(true)) && forall s, a {:trigger r(s), Enabled(s, a)} :: r(s) && Enabled(s, a) ==> r(Apply(s, a))
  }

  ghost predicate Reachable(s: State) {
    exists acts :: Legal(true, acts) && Run(true, acts) == s
  }

  ghost predicate Sound(s: State) { Reachable(s) && AllOk(s.clients) }

  lemma SoundIsClosed()
    ensures Closed(s => Sound(s))
  {
    assert Sound(Init(true)) by {
      assert Run(true, []) == Init(true);
    }
    forall s, a | Sound(s) && Enabled(s, a)
      ensures Sound(Apply(s, a))
    {
      var acts :| Legal(true, acts) && Run(true, acts) == s;
      assert (acts + [a])[..|acts + [a]| - 1] == acts;
      assert Run(true, acts + [a]) == Apply(s, a);
      ClientsOkStep(s, a);
    }
  }

  // ---------------------------------------------------------------- pieces of a run

  /** The server rests and the handlers of `a` and `b` wait for a message. */
  ghost predicate Quiet(s: State, a: nat, b: nat) {
    && a < |s.clients| == |s.handlers| && b < |s.clients|
    && s.handlers[a] == s.handlers[b] == Reading
    && s.owner == Nobody && s.main == Locking && !s.notification && s.proxyUp
  }

  /** Process `x` dies and its monitor reports. */
  function Dead(c: Client, x: Pid): Client { ReportOf(ReapOf(ExitOf(c, x), x), x) }

  lemma Die(r: State -> bool, s: State, k: nat, x: Pid)
    requires Closed(r) && r(s) && k < |s.clients| && x in s.clients[k].alive && x in s.clients[k].watched
    ensures r(s.(clients := s.clients[k := Dead(s.clients[k], x)]))
  {
    assert Enabled(s, Exit(k, x));
    var s1 := Apply(s, Exit(k, x));
    assert Enabled(s1, Reap(k, x));
    var s2 := Apply(s1, Reap(k, x));
    assert Enabled(s2, Report(k, x));
    assert Apply(s2, Report(k, x)) == s.(clients := s.clients[k := Dead(s.clients[k], x)]);
  }

  /** The handler records the CRASH. */
  function Recording(s: State, b: nat): State
    requires b < |s.clients| && s.clients[b].inFlight > 0
  {
    var c := s.clients[b];
    s.(clients := s.clients[b := c.(inFlight := c.inFlight - 1, recorded := c.recorded + 1)],
       notification := true, message := RESTART, log := s.log + [Recorded(b)])
  }

  lemma Record(r: State -> bool, s: State, b: nat)
    requires Closed(r) && r(s) && Quiet(s, b, b) && s.clients[b].inFlight > 0
    ensures r(Recording(s, b))
  {
    var a := HandlerStep(b);
    assert Enabled(s, a);
    var s1 := Apply(s, a);
    assert Enabled(s1, a);
    var s2 := Apply(s1, a);
    assert Enabled(s2, a);
    var s3 := Apply(s2, a);
    assert Enabled(s3, a);
    var s4 := Apply(s3, a);
    assert Enabled(s4, a);
    assert s4.handlers[b := Reading] == s.handlers;
    assert Apply(s4, a) == Recording(s, b);
  }

  /** A whole round of the main loop. */
  lemma Round(r: State -> bool, s: State)
    requires Closed(r) && r(s) && s.notification && s.message == RESTART
    requires s.owner == Nobody && s.main == Locking && s.proxyUp
    ensures r(s.(clients := AllOrdered(s.clients, |s.clients|),
                 notification := false, message := "", log := s.log + [RoundEnded]))
  {
    var a := MainStep(true);
    assert Enabled(s, a);
    var s1 := Apply(s, a);
    assert Enabled(s1, a);
    var s2 := Apply(s1, a);
    assert Enabled(s2, a);
    var s3 := Apply(s2, a);
    assert Enabled(s3, a);
    var s4 := Apply(s3, a);
    assert Enabled(s4, a);
    var s5 := Apply(s4, a);
    assert s5 == s.(owner := Main, main := Sending(0, |s.clients|));
    assert AllOrdered(s.clients, 0) == s.clients;
    SendRest(r, s5, s.clients, 0);
  }

  lemma {:induction false} SendRest(r: State -> bool, s: State, cs: seq<Client>, i: nat)
    requires Closed(r) && r(s) && i <= |cs| && s.clients == AllOrdered(cs, i)
    requires s.main == Sending(i, |cs|) && s.owner == Main
    ensures r(s.(clients := AllOrdered(cs, |cs|), owner := Nobody, main := Locking,
                 notification := false, message := "", log := s.log + [RoundEnded]))
    decreases |cs| - i
  {
    assert Enabled(s, MainStep(true));
    if i < |cs| {
      var s' := Apply(s, MainStep(true));
      assert s'.clients == AllOrdered(cs, i + 1);
      SendRest(r, s', cs, i + 1);
    } else {
      EndRound(r, s);
    }
  }

  lemma EndRound(r: State -> bool, s: State)
    requires Closed(r) && r(s) && s.main.Sending? && s.main.i >= |s.clients| && s.owner == Main
    ensures r(s.(owner := Nobody, main := Locking, notification := false, message := "", log := s.log + [RoundEnded]))
  {
    var a := MainStep(true);
    assert Enabled(s, a);
    var s1 := Apply(s, a);
    assert Enabled(s1, a);
    var s2 := Apply(s1, a);
    assert Enabled(s2, a);
    var s3 := Apply(s2, a);
    assert Enabled(s3, a);
    assert Apply(s3, a)
        == s.(owner := Nobody, main := Locking, notification := false, message := "", log := s.log + [RoundEnded]);
  }

  /** New processes get pids that were never used. */
  ghost predicate Fresh(spawned: seq<Option<Pid>>, used: set<Pid>) {
    && (forall j :: 0 <= j < |spawned| && spawned[j].Some? ==> spawned[j].value !in used)
    && (forall i, j :: 0 <= i < j < |spawned| && spawned[i].Some? ==> spawned[i] != spawned[j])
  }

  lemma {:induction false} NewPids(n: nat, used: set<Pid>) returns (spawned: seq<Option<Pid>>)
    ensures |spawned| == n && Fresh(spawned, used) && forall j :: 0 <= j < n ==> spawned[j].Some?
  {
    if n == 0 {
      spawned := [];
    } else {
      Pigeonhole(0, |used| + 1, used);
      var p: Pid :| p !in used;
      var rest := NewPids(n - 1, used + {p});
      spawned := [Some(p)] + rest;
    }
  }

  lemma {:induction false} ClientSteps(r: State -> bool, s: State, k: nat, inputs: seq<Option<Pid>>)
    requires Closed(r) && r(s) && k < |s.clients| && !s.clients[k].pc.Ready?
    requires Fresh(inputs, s.clients[k].launched.Keys)
    ensures r(s.(clients := s.clients[k := L.Steps(s.clients[k], inputs)]))
    decreases |inputs|
  {
    var c := s.clients[k];
    if inputs == [] {
      assert s.clients[k := c] == s.clients;
    } else {
      var a := ClientStep(k, inputs[0]);
      assert Enabled(s, a);
      var s' := Apply(s, a);
      if !s'.clients[k].pc.Ready? {
        FreshRest(c, inputs);
        ClientSteps(r, s', k, inputs[1..]);
        assert s'.clients[k := L.Steps(s'.clients[k], inputs[1..])] == s.clients[k := L.Steps(c, inputs)];
      }
    }
  }

  lemma FreshRest(c: Client, inputs: seq<Option<Pid>>)
    requires Fresh(inputs, c.launched.Keys) && inputs != [] && !c.pc.Ready?
    ensures Fresh(inputs[1..], ApplyClient(c, inputs[0]).launched.Keys)
  {
    assert ApplyClient(c, inputs[0]).launched.Keys
        <= c.launched.Keys + if inputs[0].Some? then {inputs[0].value} else {};
  }

  // ---------------------------------------------------------------- the clients start

  function Connected(es: seq<nat>): (cs: seq<Client>) {
    seq(|es|, k requires 0 <= k < |es| => NewClient(es[k], 0))
  }

  lemma {:induction false} ConnectAll(r: State -> bool, es: seq<nat>)
    requires Closed(r)
    ensures r(Init(true).(clients := Connected(es), handlers := seq(|es|, _ => Reading)))
  {
    if es == [] {
      assert Init(true).(clients := Connected(es), handlers := seq(|es|, _ => Reading)) == Init(true);
    } else {
      var n := |es| - 1;
      ConnectAll(r, es[..n]);
      var s := Init(true).(clients := Connected(es[..n]), handlers := seq(n, _ => Reading));
      assert Enabled(s, Connect(es[n]));
      assert Apply(s, Connect(es[n])).clients == Connected(es);
      assert Apply(s, Connect(es[n])).handlers == seq(|es|, _ => Reading);
    }
  }

  /** A client at rest with a listed process `x` that is alive. */
  ghost predicate Up(c: Client, x: Pid) {
    c.pc == Ready && c.inbox == [] && x in c.alive && x in c.watched && x in Pids(c.processList)
  }

  /** START: every entity is launched. */
  lemma Begin(r: State -> bool, s: State, k: nat) returns (c: Client)
    requires Closed(r) && r(s) && k < |s.clients| && s.clients[k] == NewClient(s.clients[k].entities, 0)
    ensures r(s.(clients := s.clients[k := c]))
    ensures c.entities == s.clients[k].entities && c.crashed == {} && c.signalled == {} && c.inFlight == 0
    ensures |c.processList| == c.entities
    ensures forall j :: 0 <= j < c.entities ==> Up(c, c.processList[j].pid)
    ensures forall i, j :: 0 <= i < j < c.entities ==> c.processList[i].pid != c.processList[j].pid
  {
    var n := s.clients[k].entities;
    var c0 := s.clients[k].(inbox := [], gen := 1, pc := Starting(0));
    assert s.clients[k].inbox[1..] == [] && Enabled(s, ClientStep(k, None));
    assert Apply(s, ClientStep(k, None)) == s.(clients := s.clients[k := c0]);
    var spawned := NewPids(n, {});
    ClientSteps(r, s.(clients := s.clients[k := c0]), k, spawned + [None]);
    L.StartSteps(c0, spawned, 0, None);
    assert L.StartAll(c0, spawned[..0]).(pc := Starting(0)) == c0 && spawned[0..] + [None] == spawned + [None];
    c := L.StartAll(c0, spawned).(pc := Ready);
    assert s.clients[k := c0][k := c] == s.clients[k := c];
    Started(c0, spawned);
  }

  lemma {:induction false} Started(c: Client, spawned: seq<Option<Pid>>)
    requires forall j :: 0 <= j < |spawned| ==> spawned[j].Some?
    ensures var r := L.StartAll(c, spawned);
      && r == c.(processList := r.processList, launched := r.launched, alive := r.alive, watched := r.watched)
      && |r.processList| == |c.processList| + |spawned| && c.processList <= r.processList
      && c.alive <= r.alive && c.watched <= r.watched
      && forall m :: |c.processList| <= m < |r.processList| ==>
           r.processList[m].pid in r.alive && r.processList[m].pid in r.watched
           && spawned[m - |c.processList|] == Some(r.processList[m].pid)
  {
    if spawned != [] {
      Started(c, spawned[..|spawned| - 1]);
    }
  }

  // ---------------------------------------------------------------- the loop

  /** A CRASH of client `b` is in flight while a listed process `x` of client `a` is alive. */
  ghost predicate Ripe(s: State, a: nat, b: nat, x: Pid) {
    Quiet(s, a, b) && Up(s.clients[a], x) && s.clients[a].entities > 0 && s.clients[b].inFlight > 0
  }

  /** RESTART: the listed processes are sent SIGKILL if alive, then every entity is launched
      again. `x` has been signalled but takes time to die. */
  lemma Obey(r: State -> bool, s: State, k: nat, x: Pid) returns (c': Client, x': Pid)
    requires Closed(r) && r(s) && k < |s.clients| && s.clients[k].entities > 0
    requires s.clients[k].inbox == [Restart] && Up(s.clients[k].(inbox := []), x) && x in s.clients[k].launched
    ensures r(s.(clients := s.clients[k := c']))
    ensures var c := s.clients[k];
      && Up(c', x') && x' != x && x in c'.alive && x in c'.watched && x in c'.signalled
      && c'.crashed == c.crashed && c'.inFlight == c.inFlight && c'.entities == c.entities
  {
    var c := s.clients[k];
    var c0 := c.(inbox := [], pc := Stopping(0));
    assert s.clients[k].inbox[1..] == [] && Enabled(s, ClientStep(k, None));
    assert Apply(s, ClientStep(k, None)) == s.(clients := s.clients[k := c0]);
    var idle := seq(|c.processList| + 1, _ => None);
    var spawned := NewPids(c.entities, c.launched.Keys);
    ClientSteps(r, s.(clients := s.clients[k := c0]), k, idle + (spawned + [None]));
    L.RestartSteps(c0, idle, spawned);
    L.StopAllReaches(c0, 0);
    var stopped := L.StopAll(c0, 0).(gen := c.gen + 1);
    assert x in stopped.signalled && stopped.processList == [];
    Started(stopped, spawned);
    c' := L.StartAll(stopped, spawned).(pc := Ready);
    x' := c'.processList[0].pid;
    assert s.clients[k := c0][k := c'] == s.clients[k := c'];
  }

  /** From one ripe state to the next: a full round, and no process dies that was not killed. */
  lemma Again(r: State -> bool, s: State, a: nat, b: nat, x: Pid) returns (s': State, x': Pid)
    requires Closed(r) && r(s) && Ripe(s, a, b, x) && AllOk(s.clients)
    ensures r(s') && Ripe(s', a, a, x')
    ensures EntitiesOf(s'.clients) == EntitiesOf(s.clients) && CrashedBy(s'.clients) == CrashedBy(s.clients)
    ensures Ends(s'.log) == Ends(s.log) + 1
  {
    Record(r, s, b);
    var s1 := Recording(s, b);
    Round(r, s1);
    var s2 := s1.(clients := AllOrdered(s1.clients, |s1.clients|),
                  notification := false, message := "", log := s1.log + [RoundEnded]);
    assert s2.log[..|s2.log| - 1] == s1.log && s1.log[..|s1.log| - 1] == s.log;
    assert ClientOk(s.clients[a]);
    var c;
    c, x' := Obey(r, s2, a, x);
    var s3 := s2.(clients := s2.clients[a := c]);
    Die(r, s3, a, x);
    s' := s3.(clients := s3.clients[a := Dead(c, x)]);
  }

  /** Two entities: two of one client, or one each of two. */
  lemma {:induction false} TwoSlots(es: seq<nat>) returns (a: nat, b: nat)
    requires Sum(es) >= 2
    ensures a < |es| && b < |es| && es[a] > 0 && es[b] > 0 && (a == b ==> es[a] >= 2)
  {
    var n := |es| - 1;
    if Sum(es[..n]) >= 2 {
      a, b := TwoSlots(es[..n]);
    } else if es[n] >= 2 {
      a, b := n, n;
    } else {
      a := Positive(es[..n]);
      b := n;
    }
  }

  lemma {:induction false} Positive(es: seq<nat>) returns (a: nat)
    requires Sum(es) > 0
    ensures a < |es| && es[a] > 0
  {
    a := |es| - 1;
    if es[a] == 0 {
      a := Positive(es[..a]);
    }
  }

  /** START: everyone has connected, and two different processes run. */
  lemma BeginTwo(r: State -> bool, es: seq<nat>, a: nat, b: nat) returns (s: State, x: Pid, p: Pid)
    requires Closed(r) && a < |es| && b < |es| && es[a] > 0 && es[b] > 0 && (a == b ==> es[a] >= 2)
    ensures r(s) && Quiet(s, a, b) && s.log == [] && EntitiesOf(s.clients) == es
    ensures Up(s.clients[a], x) && Up(s.clients[b], p) && (a == b ==> x != p)
    ensures forall k :: 0 <= k < |s.clients| ==> s.clients[k].crashed == {} && s.clients[k].signalled == {}
  {
    ConnectAll(r, es);
    var s0 := Init(true).(clients := Connected(es), handlers := seq(|es|, _ => Reading));
    var ca := Begin(r, s0, a);
    x := ca.processList[0].pid;
    s := s0.(clients := s0.clients[a := ca]);
    if a == b {
      p := ca.processList[1].pid;
    } else {
      var cb := Begin(r, s, b);
      p := cb.processList[0].pid;
      s := s.(clients := s.clients[b := cb]);
    }
  }

  /** One of them crashes. */
  lemma FirstCrash(r: State -> bool, es: seq<nat>) returns (s: State, a: nat, b: nat, x: Pid)
    requires Closed(r) && Sum(es) >= 2
    ensures r(s) && Ripe(s, a, b, x) && EntitiesOf(s.clients) == es && Ends(s.log) == 0
    ensures Sum(CrashedBy(s.clients)) == 1
  {
    a, b := TwoSlots(es);
    var s0, p;
    s0, x, p := BeginTwo(r, es, a, b);
    s := FirstDeath(r, s0, b, p);
    assert s.clients[a].entities == EntitiesOf(s.clients)[a];
  }

  lemma FirstDeath(r: State -> bool, s: State, b: nat, p: Pid) returns (s': State)
    requires Closed(r) && r(s) && b < |s.clients| && Up(s.clients[b], p)
    requires forall k :: 0 <= k < |s.clients| ==> s.clients[k].crashed == {} && s.clients[k].signalled == {}
    ensures r(s') && s' == s.(clients := s.clients[b := Dead(s.clients[b], p)])
    ensures Sum(CrashedBy(s'.clients)) == 1 && EntitiesOf(s'.clients) == EntitiesOf(s.clients)
  {
    Die(r, s, b, p);
    s' := s.(clients := s.clients[b := Dead(s.clients[b], p)]);
    SumZero(CrashedBy(s.clients));
    SumUpdate(CrashedBy(s.clients), b, 1);
    assert s'.clients[b].crashed == {p};
    assert CrashedBy(s'.clients) == CrashedBy(s.clients)[b := 1];
  }

  /** For every n, and any clients with two or more entities between them, a state is reached
      after n rounds in which a single process has died of its own accord. */
  lemma {:induction false} OneCrashManyRounds(es: seq<nat>, n: nat) returns (s: State, a: nat, b: nat, x: Pid)
    requires Sum(es) >= 2
    ensures Sound(s) && Ripe(s, a, b, x)
    ensures EntitiesOf(s.clients) == es && Ends(s.log) == n && Sum(CrashedBy(s.clients)) == 1
  {
    SoundIsClosed();
    if n == 0 {
      s, a, b, x := FirstCrash(t => Sound(t), es);
    } else {
      var t, d, y;
      t, a, d, y := OneCrashManyRounds(es, n - 1);
      s, x := Again(t => Sound(t), t, a, d, y);
      b := a;
    }
  }

  /** Whatever happens, clients with these numbers of entities see at most one round per
      process that died of its own accord. */
  ghost predicate Settles(es: seq<nat>) {
    forall up, acts :: Legal(up, acts) && EntitiesOf(Run(up, acts).clients) == es ==>
      Rounds(Run(up, acts)) <= Sum(CrashedBy(Run(up, acts).clients))
  }

  /** Restarting settles exactly if all clients together run at most one entity. */
  lemma SettlesExactly(es: seq<nat>)
    ensures Settles(es) <==> Sum(es) <= 1
  {
    if Sum(es) <= 1 {
      forall up, acts | Legal(up, acts) && EntitiesOf(Run(up, acts).clients) == es
        ensures Rounds(Run(up, acts)) <= Sum(CrashedBy(Run(up, acts).clients))
      {
        SingleEntitySettles(up, acts);
      }
    } else {
      var s, a, b, x := OneCrashManyRounds(es, 2);
      var acts :| Legal(true, acts) && Run(true, acts) == s;
      assert EntitiesOf(Run(true, acts).clients) == es;
    }
  }
}
