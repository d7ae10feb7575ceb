/** How many restart rounds a given number of deaths can cause. */
module RestartSettles {
  import opened Base
  import opened RestartProtocol
  import opened RestartTheorems

  function Rounds(s: State): nat { Ends(s.log) + One(InRound(s.main)) }

  function EntitiesOf(cs: seq<Client>): (r: seq<nat>) {
    seq(|cs|, k requires 0 <= k < |cs| => cs[k].entities)
  }

  /** How many processes of each client exited without having been sent SIGKILL. */
  function CrashedBy(cs: seq<Client>): (r: seq<nat>) {
    seq(|cs|, k requires 0 <= k < |cs| => |cs[k].crashed|)
  }

  function SignalledBy(cs: seq<Client>): (r: seq<nat>) {
    seq(|cs|, k requires 0 <= k < |cs| => |cs[k].signalled|)
  }

  // ---------------------------------------------------------------- no round without a death

  ghost predicate DeathsOk(c: Client) { c.launched.Keys <= c.alive + c.crashed + c.signalled }

  ghost predicate AllDeathsOk(cs: seq<Client>) {
    forall k :: 0 <= k < |cs| ==> DeathsOk(cs[k])
  }

  lemma DeathsClient(c: Client, spawned: Option<Pid>)
    requires DeathsOk(c) && (c.pc.Ready? ==> c.inbox != [])
    ensures DeathsOk(ApplyClient(c, spawned))
  {
  }

  lemma DeathsStep(s: State, a: Action)
    requires Enabled(s, a) && AllDeathsOk(s.clients)
    ensures AllDeathsOk(Apply(s, a).clients)
  {
    match a
    case ClientStep(k, spawned) => DeathsClient(s.clients[k], spawned);
    case MainStep(_) =>
    case HandlerStep(_) =>
    case _ =>
  }

  lemma {:induction false} DeathsHold(up: bool, acts: seq<Action>)
    requires Legal(up, acts)
    ensures AllDeathsOk(Run(up, acts).clients)
  {
    if acts != [] {
      var front := acts[..|acts| - 1];
      DeathsHold(up, front);
      DeathsStep(Run(up, front), acts[|acts| - 1]);
    }
  }

  /** Every round is paid for by a process that died of its own accord or was sent SIGKILL by
      an earlier round. */
  lemma RoundsNeedDeaths(up: bool, acts: seq<Action>)
    requires Legal(up, acts)
    ensures var s := Run(up, acts);
      Rounds(s) <= Sum(CrashedBy(s.clients)) + Sum(SignalledBy(s.clients))
  {
    FlagHolds(up, acts);
    ClientsOkHold(up, acts);
    LedgerHolds(up, acts);
    DeathsHold(up, acts);
    DeathsPay(Run(up, acts));
  }

  lemma DeathsPay(s: State)
    requires MutexOk(s) && FlagOk(s) && AllOk(s.clients) && LedgerOk(s) && AllDeathsOk(s.clients)
    ensures Rounds(s) <= Sum(CrashedBy(s.clients)) + Sum(SignalledBy(s.clients))
  {
    var ms, ns := CrashedBy(s.clients), SignalledBy(s.clients);
    var deaths := seq(|s.clients|, k requires 0 <= k < |s.clients| => ms[k] + ns[k]);
    forall k | 0 <= k < |s.clients|
      ensures RecordedBy(s.clients)[k] <= deaths[k]
    {
      ReportsAreDeaths(s.clients[k], s.handlers[k]);
    }
    SumMonotone(RecordedBy(s.clients), deaths);
    SumAdds(ms, ns, deaths);
  }

  lemma ReportsAreDeaths(c: Client, h: HandlerPc)
    requires ClientOk(c) && DeathsOk(c) && ReportsOk(c, h)
    ensures c.recorded <= |c.crashed| + |c.signalled|
  {
    assert c.reported <= c.crashed + c.signalled;
    SubsetSize(c.reported, c.crashed + c.signalled);
    assert |c.crashed + c.signalled| <= |c.crashed| + |c.signalled|;
  }

  lemma {:induction false} SumAdds(ms: seq<nat>, ns: seq<nat>, sums: seq<nat>)
    requires |ms| == |ns| == |sums| && forall k :: 0 <= k < |ms| ==> sums[k] == ms[k] + ns[k]
    ensures Sum(sums) == Sum(ms) + Sum(ns)
  {
    if ms != [] {
      SumAdds(ms[..|ms| - 1], ns[..|ns| - 1], sums[..|sums| - 1]);
    }
  }

  // ---------------------------------------------------------------- a single entity

  /** All clients together run at most one entity. */
  ghost predicate AtMostOne(cs: seq<Client>) {
    && (forall k :: 0 <= k < |cs| ==> cs[k].entities <= 1)
    && (forall k, l :: 0 <= k < l < |cs| ==> cs[k].entities == 0 || cs[l].entities == 0)
  }

  /** What stands between one launch of an entity and the next: its process, its CRASH, the
      flag if it is still to be obeyed, the RESTART, the launch. */
  ghost function Load(c: Client, h: HandlerPc, pending: bool): nat {
    |c.watched| + |c.reaped| + c.inFlight + Holding(h) + One(pending) + |c.inbox|
    + One(c.pc.Stopping? || c.pc == Starting(0))
  }

  ghost predicate SingleOk(c: Client, h: HandlerPc, pending: bool) {
    && c.signalled == {}
    && (c.entities == 0 ==> c.launched == map[] && c.inFlight == 0 && Holding(h) == 0)
    && (c.entities == 1 ==> Load(c, h, pending) <= 1)
  }

  predicate Pending(s: State, k: nat) { s.notification && Due(s.main, k) == 0 }

  ghost predicate SingleAt(s: State, k: nat)
    requires k < |s.clients| == |s.handlers|
  {
    SingleOk(s.clients[k], s.handlers[k], Pending(s, k))
  }

  ghost predicate Single(s: State) {
    && |s.clients| == |s.handlers|
    && (forall k :: 0 <= k < |s.clients| ==> SingleAt(s, k))
    && (s.notification ==> exists k :: 0 <= k < |s.clients| && s.clients[k].entities == 1)
  }

  /** A step that touches only client `k` and its handler. */
  lemma SingleOne(s: State, s': State, k: nat)
    requires Single(s) && k < |s.clients| == |s'.clients| == |s'.handlers|
    requires s' == s.(clients := s.clients[k := s'.clients[k]], handlers := s.handlers[k := s'.handlers[k]],
                      message := s'.message, owner := s'.owner)
    requires s'.clients[k].entities == s.clients[k].entities
    requires SingleOk(s'.clients[k], s'.handlers[k], Pending(s, k))
    ensures Single(s')
  {
    forall j | 0 <= j < |s.clients|
      ensures SingleAt(s', j)
    {
      assert SingleAt(s, j);
    }
    if s'.notification {
      var j :| 0 <= j < |s.clients| && s.clients[j].entities == 1;
      assert s'.clients[j].entities == 1;
    }
  }

  lemma SingleStop(c: Client, h: HandlerPc, pending: bool)
    requires MonitorsOk(c) && c.entities <= 1 && SingleOk(c, h, pending) && c.pc.Stopping?
    ensures SingleOk(ApplyClient(c, None), h, pending)
  {
    assert c.entities == 1 ==> |c.watched| == 0;
    assert c.alive == {};
  }

  lemma SingleStart(c: Client, h: HandlerPc, pending: bool, spawned: Option<Pid>)
    requires c.entities <= 1 && SingleOk(c, h, pending) && c.pc.Starting?
    ensures SingleOk(ApplyClient(c, spawned), h, pending)
  {
    if c.pc.j < c.entities && spawned.Some? {
      assert |c.watched| == 0;
      assert |c.watched + {spawned.value}| == 1;
    }
  }

  lemma SingleRead(c: Client, h: HandlerPc, pending: bool)
    requires c.entities <= 1 && SingleOk(c, h, pending) && c.pc.Ready? && c.inbox != []
    ensures SingleOk(ApplyClient(c, None), h, pending)
  {
  }

  lemma SingleClient(c: Client, h: HandlerPc, pending: bool, spawned: Option<Pid>)
    requires MonitorsOk(c) && c.entities <= 1 && SingleOk(c, h, pending) && (c.pc.Ready? ==> c.inbox != [])
    ensures SingleOk(ApplyClient(c, spawned), h, pending) && ApplyClient(c, spawned).entities == c.entities
  {
    match c.pc
    case Stopping(_) => SingleStop(c, h, pending);
    case Starting(_) => SingleStart(c, h, pending, spawned);
    case Ready => SingleRead(c, h, pending);
  }

  lemma SingleMonitor(c: Client, h: HandlerPc, pending: bool, pid: Pid)
    requires MonitorsOk(c) && c.entities <= 1 && SingleOk(c, h, pending)
    ensures pid in c.alive ==> SingleOk(ExitOf(c, pid), h, pending)
    ensures pid in c.watched ==> SingleOk(ReapOf(c, pid), h, pending)
    ensures pid in c.reaped ==> SingleOk(ReportOf(c, pid), h, pending)
  {
    assert pid in c.alive + c.watched + c.reaped ==> pid in c.launched;
  }

  lemma SingleHandler(s: State, k: nat)
    requires Enabled(s, HandlerStep(k)) && Single(s) && AtMostOne(s.clients)
    ensures Single(Apply(s, HandlerStep(k)))
  {
    var s' := Apply(s, HandlerStep(k));
    assert SingleAt(s, k);
    if s.handlers[k].Raising? {
      assert s.clients[k].entities == 1 && s'.clients[k].entities == 1;
      forall j | 0 <= j < |s.clients|
        ensures SingleAt(s', j)
      {
        assert SingleAt(s, j);
        assert j != k ==> s.clients[j].entities == 0;
      }
    } else {
      SingleOne(s, s', k);
    }
  }

  lemma SingleSend(s: State)
    requires Single(s) && s.main.Sending? && s.notification
    ensures Single(ApplyMain(s, false))
  {
    var s', i := ApplyMain(s, false), s.main.i;
    forall j | 0 <= j < |s.clients|
      ensures SingleAt(s', j) && s'.clients[j].entities == s.clients[j].entities
    {
      assert SingleAt(s, j);
      assert j == i < s.main.n ==> Pending(s, j) && !Pending(s', j);
    }
    var j :| 0 <= j < |s.clients| && s.clients[j].entities == 1;
    assert s'.clients[j].entities == 1;
  }

  lemma SingleMain(s: State, launched: bool)
    requires Enabled(s, MainStep(launched)) && Single(s) && FlagOk(s)
    ensures Single(ApplyMain(s, launched))
  {
    var s' := ApplyMain(s, launched);
    if s.main.Sending? {
      SingleSend(s);
    } else {
      assert s'.clients == s.clients && s'.handlers == s.handlers;
      forall j | 0 <= j < |s.clients|
        ensures SingleAt(s', j)
      {
        assert SingleAt(s, j) && (Pending(s', j) ==> Pending(s, j));
      }
    }
  }

  lemma SingleConnect(s: State, n: nat)
    requires Enabled(s, Connect(n)) && Single(s) && AtMostOne(Apply(s, Connect(n)).clients)
    ensures Single(Apply(s, Connect(n)))
  {
    var s', k := Apply(s, Connect(n)), |s.clients|;
    assert s'.clients[k].entities == n;
    forall j | 0 <= j < k
      ensures SingleAt(s', j)
    {
      assert SingleAt(s, j);
    }
    if s'.notification {
      var j :| 0 <= j < k && s.clients[j].entities == 1;
      assert s'.clients[j].entities == 1 && n == 0;
    }
    assert SingleAt(s', k);
  }

  lemma SingleStep(s: State, a: Action)
    requires Enabled(s, a) && Single(s) && AllOk(s.clients) && FlagOk(s)
    requires AtMostOne(s.clients) && AtMostOne(Apply(s, a).clients)
    ensures Single(Apply(s, a))
  {
    match a
    case Connect(n) => SingleConnect(s, n);
    case MainStep(launched) => SingleMain(s, launched);
    case HandlerStep(k) => SingleHandler(s, k);
    case ClientStep(k, spawned) => SingleClientStep(s, k, spawned);
    case _ => SingleMonitorStep(s, a);
  }

  lemma SingleReplace(s: State, k: nat, c: Client)
    requires Single(s) && k < |s.clients| && c.entities == s.clients[k].entities
    requires SingleOk(c, s.handlers[k], Pending(s, k))
    ensures Single(s.(clients := s.clients[k := c]))
  {
    var s' := s.(clients := s.clients[k := c]);
    assert s.handlers[k := s.handlers[k]] == s.handlers;
    SingleOne(s, s', k);
  }

  lemma AtClient(s: State, k: nat)
    requires Single(s) && AllOk(s.clients) && AtMostOne(s.clients) && k < |s.clients|
    ensures MonitorsOk(s.clients[k]) && s.clients[k].entities <= 1
    ensures SingleOk(s.clients[k], s.handlers[k], Pending(s, k))
  {
    assert SingleAt(s, k) && ClientOk(s.clients[k]);
  }

  lemma SingleClientStep(s: State, k: nat, spawned: Option<Pid>)
    requires Enabled(s, ClientStep(k, spawned)) && Single(s) && AllOk(s.clients) && AtMostOne(s.clients)
    ensures Single(Apply(s, ClientStep(k, spawned)))
  {
    AtClient(s, k);
    SingleClient(s.clients[k], s.handlers[k], Pending(s, k), spawned);
    SingleReplace(s, k, ApplyClient(s.clients[k], spawned));
  }

  lemma SingleMonitorStep(s: State, a: Action)
    requires a.Exit? || a.Reap? || a.Report?
    requires Enabled(s, a) && Single(s) && AllOk(s.clients) && AtMostOne(s.clients)
    ensures Single(Apply(s, a))
  {
    AtClient(s, a.k);
    SingleMonitor(s.clients[a.k], s.handlers[a.k], Pending(s, a.k), a.pid);
    match a
    case Exit(k, pid) => SingleReplace(s, k, ExitOf(s.clients[k], pid));
    case Reap(k, pid) => SingleReplace(s, k, ReapOf(s.clients[k], pid));
    case Report(k, pid) => SingleReplace(s, k, ReportOf(s.clients[k], pid));
  }

  /** Clients stay, and keep their entities. */
  lemma EntitiesStay(s: State, a: Action)
    requires Enabled(s, a)
    ensures EntitiesOf(s.clients) <= EntitiesOf(Apply(s, a).clients)
  {
    match a
    case MainStep(_) =>
    case HandlerStep(_) =>
    case _ =>
  }

  lemma {:induction false} SingleHolds(up: bool, acts: seq<Action>)
    requires Legal(up, acts) && AtMostOne(Run(up, acts).clients)
    ensures Single(Run(up, acts))
  {
    if acts != [] {
      var front, last := acts[..|acts| - 1], acts[|acts| - 1];
      EntitiesStay(Run(up, front), last);
      AtMostOneBefore(Run(up, front).clients, Run(up, acts).clients);
      SingleHolds(up, front);
      ClientsOkHold(up, front);
      FlagHolds(up, front);
      SingleStep(Run(up, front), last);
    }
  }

  lemma AtMostOneBefore(cs: seq<Client>, cs': seq<Client>)
    requires EntitiesOf(cs) <= EntitiesOf(cs') && AtMostOne(cs')
    ensures AtMostOne(cs)
  {
    forall k | 0 <= k < |cs|
      ensures cs[k].entities == cs'[k].entities
    {
      assert EntitiesOf(cs)[k] == EntitiesOf(cs')[k];
    }
  }

  lemma {:induction false} SumAtMostOne(cs: seq<Client>)
    requires Sum(EntitiesOf(cs)) <= 1
    ensures AtMostOne(cs)
    ensures forall k :: 0 <= k < |cs| ==> cs[k].entities <= Sum(EntitiesOf(cs))
  {
    if cs != [] {
      assert EntitiesOf(cs)[..|cs| - 1] == EntitiesOf(cs[..|cs| - 1]);
      SumAtMostOne(cs[..|cs| - 1]);
    }
  }

  lemma {:induction false} SumZero(ns: seq<nat>)
    requires forall k :: 0 <= k < |ns| ==> ns[k] == 0
    ensures Sum(ns) == 0
  {
    if ns != [] {
      SumZero(ns[..|ns| - 1]);
    }
  }

  /** With at most one entity in all, no live process is ever signalled, and there is at most
      one round for each process that died of its own accord. */
  lemma SingleEntitySettles(up: bool, acts: seq<Action>)
    requires Legal(up, acts) && Sum(EntitiesOf(Run(up, acts).clients)) <= 1
    ensures var s := Run(up, acts);
      && (forall k :: 0 <= k < |s.clients| ==> s.clients[k].signalled == {})
      && Rounds(s) <= Sum(CrashedBy(s.clients))
  {
    SumAtMostOne(Run(up, acts).clients);
    SingleHolds(up, acts);
    RoundsNeedDeaths(up, acts);
    NobodySignalled(Run(up, acts));
  }

  lemma NobodySignalled(s: State)
    requires Single(s)
    ensures forall k :: 0 <= k < |s.clients| ==> s.clients[k].signalled == {}
    ensures Sum(SignalledBy(s.clients)) == 0
  {
    forall k | 0 <= k < |s.clients|
      ensures s.clients[k].signalled == {}
    {
      assert SingleAt(s, k);
    }
    SumZero(SignalledBy(s.clients));
  }
}
