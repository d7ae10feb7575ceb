/** What holds in every run of the crash/restart protocol. */
module RestartTheorems {
  import opened Base
  import opened RestartProtocol

  // ---------------------------------------------------------------- the process list of a client

  ghost function Pids(ps: seq<Proc>): (r: set<Pid>) {
    set m | 0 <= m < |ps| :: ps[m].pid
  }

  function Done(c: Client): nat { if c.pc.Stopping? then c.pc.i else 0 }

  /** START comes once, before anything was launched and before every RESTART. */
  ghost predicate StartFirst(c: Client) {
    forall m :: 0 <= m < |c.inbox| && c.inbox[m] == Start ==>
      m == 0 && c.pc.Ready? && c.gen == 0 && c.launched == map[] && c.processList == []
  }

  ghost predicate ListOk(c: Client) {
    && Done(c) <= |c.processList|
    && (forall m :: 0 <= m < |c.processList| ==>
          var p := c.processList[m];
          && p.pid in c.launched && c.launched[p.pid] == p && p.gen == c.gen
          && p.entity < (if c.pc.Starting? then c.pc.j else c.entities))
    && (forall l, m :: 0 <= l < m < |c.processList| ==> c.processList[l].entity < c.processList[m].entity)
    && (c.pc.Starting? ==> c.pc.j <= c.entities)
  }

  ghost predicate Gone(c: Client, pid: Pid) { pid in c.signalled || pid !in c.alive }

  ghost predicate SignalsOk(c: Client) {
    && c.alive <= c.launched.Keys && c.signalled <= c.launched.Keys
    && (forall pid :: pid in c.launched ==> c.launched[pid].pid == pid && c.launched[pid].gen <= c.gen)
    && (forall pid :: pid in c.launched && pid !in Pids(c.processList) ==> Gone(c, pid))
    && (forall m :: 0 <= m < Done(c) && m < |c.processList| ==> Gone(c, c.processList[m].pid))
    && (forall m :: Done(c) <= m < |c.processList| ==> c.processList[m].pid !in c.signalled)
  }

  /** Each launched process has one monitor, in exactly one of three stages. */
  ghost predicate MonitorsOk(c: Client) {
    && c.launched.Keys == c.watched + c.reaped + c.reported
    && c.watched !! c.reaped !! c.reported
    && c.alive <= c.watched
  }

  ghost predicate ClientOk(c: Client) {
    StartFirst(c) && ListOk(c) && SignalsOk(c) && MonitorsOk(c)
  }

  /** Entities are listed in strictly increasing order, so no process is listed twice. */
  lemma DistinctPids(c: Client, l: nat, m: nat)
    requires ListOk(c) && l < m < |c.processList|
    ensures c.processList[l].pid != c.processList[m].pid
  {
  }

  lemma ClientOkStop(c: Client)
    requires ClientOk(c) && c.pc.Stopping?
    ensures ClientOk(ApplyClient(c, None))
  {
    var c' := ApplyClient(c, None);
    var i := c.pc.i;
    if i < |c.processList| {
      forall m | i < m < |c.processList| ensures c.processList[m].pid !in c'.signalled {
        DistinctPids(c, i, m);
      }
    } else {
      forall pid | pid in c'.launched ensures Gone(c', pid) {
        if pid in Pids(c.processList) {
          var m :| 0 <= m < |c.processList| && c.processList[m].pid == pid;
          assert Gone(c, c.processList[m].pid);
        }
      }
    }
  }

  lemma ClientOkStart(c: Client, spawned: Option<Pid>)
    requires ClientOk(c) && c.pc.Starting? && (spawned.Some? ==> spawned.value !in c.launched)
    ensures ClientOk(ApplyClient(c, spawned))
  {
    var c' := ApplyClient(c, spawned);
    var n := |c.processList|;
    if c.pc.j < c.entities && spawned.Some? {
      assert c'.processList[n].pid == spawned.value;
      forall pid | pid in Pids(c.processList) ensures pid in Pids(c'.processList) {
        var m :| 0 <= m < n && c.processList[m].pid == pid;
        assert c'.processList[m].pid == pid;
      }
    }
  }

  /** Changes that leave list, launches and signals alone. */
  lemma ClientOkSame(c: Client, c': Client)
    requires ClientOk(c) && StartFirst(c') && MonitorsOk(c')
    requires c'.processList == c.processList && c'.launched == c.launched && c'.gen == c.gen
    requires c'.signalled == c.signalled && c'.alive <= c.alive && c'.entities == c.entities
    requires c'.pc == c.pc || (c.pc.Ready? && c'.pc == Stopping(0))
    ensures ClientOk(c')
  {
  }

  lemma ClientOkReady(c: Client, spawned: Option<Pid>)
    requires ClientOk(c) && c.pc.Ready? && c.inbox != []
    ensures ClientOk(ApplyClient(c, spawned))
  {
    var c' := ApplyClient(c, spawned);
    if c.inbox[0] == Restart {
      ClientOkSame(c, c');
    } else {
      assert c.launched == map[];
    }
  }

  lemma ClientOkStep(c: Client, spawned: Option<Pid>)
    requires ClientOk(c) && (c.pc.Ready? ==> c.inbox != []) && (spawned.Some? ==> spawned.value !in c.launched)
    ensures ClientOk(ApplyClient(c, spawned))
  {
    match c.pc
    case Ready => ClientOkReady(c, spawned);
    case Stopping(_) => ClientOkStop(c);
    case Starting(_) => ClientOkStart(c, spawned);
  }

  ghost predicate AllOk(cs: seq<Client>) {
    forall k :: 0 <= k < |cs| ==> ClientOk(cs[k])
  }

  lemma ReplaceOk(cs: seq<Client>, k: nat, c: Client)
    requires AllOk(cs) && k < |cs| && ClientOk(c)
    ensures AllOk(cs[k := c])
  {
  }

  lemma ClientOkOrdered(c: Client)
    requires ClientOk(c)
    ensures ClientOk(Ordered(c))
  {
    ClientOkSame(c, Ordered(c));
  }

  lemma ClientsOkMain(s: State, launched: bool)
    requires AllOk(s.clients)
    ensures AllOk(ApplyMain(s, launched).clients)
  {
    if s.main.Sending? && s.main.i < s.main.n && s.main.i < |s.clients| {
      ClientOkOrdered(s.clients[s.main.i]);
      ReplaceOk(s.clients, s.main.i, Ordered(s.clients[s.main.i]));
    } else {
      assert ApplyMain(s, launched).clients == s.clients;
    }
  }

  lemma ClientsOkStep(s: State, a: Action)
    requires Enabled(s, a) && AllOk(s.clients)
    ensures AllOk(Apply(s, a).clients)
  {
    match a
    case ClientStep(k, spawned) =>
      ClientOkStep(s.clients[k], spawned);
      ReplaceOk(s.clients, k, ApplyClient(s.clients[k], spawned));
    case MainStep(launched) => ClientsOkMain(s, launched);
    case Connect(n) =>
    case HandlerStep(k) => ClientsOkHandler(s, k);
    case Exit(k, pid) => ClientsOkMonitor(s, a, k, pid);
    case Reap(k, pid) => ClientsOkMonitor(s, a, k, pid);
    case Report(k, pid) => ClientsOkMonitor(s, a, k, pid);
  }

  lemma ClientsOkHandler(s: State, k: nat)
    requires Enabled(s, HandlerStep(k)) && AllOk(s.clients)
    ensures AllOk(ApplyHandler(s, k).clients)
  {
    var c := s.clients[k];
    if s.handlers[k].Reading? {
      CountsReplaced(s.clients, k, c.(inFlight := c.inFlight - 1));
    } else if s.handlers[k].Raising? {
      CountsReplaced(s.clients, k, c.(recorded := c.recorded + 1));
    } else {
      assert ApplyHandler(s, k).clients == s.clients;
    }
  }

  lemma CountsReplaced(cs: seq<Client>, k: nat, c: Client)
    requires AllOk(cs) && k < |cs| && c == cs[k].(inFlight := c.inFlight, recorded := c.recorded)
    ensures AllOk(cs[k := c])
  {
    ClientOkCounts(cs[k], c);
    ReplaceOk(cs, k, c);
  }

  lemma ClientOkCounts(c: Client, c': Client)
    requires ClientOk(c) && c' == c.(inFlight := c'.inFlight, recorded := c'.recorded)
    ensures ClientOk(c')
  {
    ClientOkSame(c, c');
  }

  lemma ClientsOkMonitor(s: State, a: Action, k: nat, pid: Pid)
    requires a == Exit(k, pid) || a == Reap(k, pid) || a == Report(k, pid)
    requires Enabled(s, a) && AllOk(s.clients)
    ensures AllOk(Apply(s, a).clients)
  {
    var c := s.clients[k];
    assert ClientOk(c);
    match a
    case Exit(_, _) => ClientOkExit(c, pid); ReplaceOk(s.clients, k, ExitOf(c, pid));
    case Reap(_, _) => ClientOkReap(c, pid); ReplaceOk(s.clients, k, ReapOf(c, pid));
    case Report(_, _) => ClientOkReport(c, pid); ReplaceOk(s.clients, k, ReportOf(c, pid));
  }

  lemma ClientOkExit(c: Client, pid: Pid)
    requires ClientOk(c)
    ensures ClientOk(ExitOf(c, pid))
  {
    ClientOkSame(c, ExitOf(c, pid));
  }

  lemma ClientOkReap(c: Client, pid: Pid)
    requires ClientOk(c) && pid in c.watched && pid !in c.alive
    ensures ClientOk(ReapOf(c, pid))
  {
    assert MonitorsOk(ReapOf(c, pid));
    ClientOkSame(c, ReapOf(c, pid));
  }

  lemma ClientOkReport(c: Client, pid: Pid)
    requires ClientOk(c) && pid in c.reaped
    ensures ClientOk(ReportOf(c, pid))
  {
    assert MonitorsOk(ReportOf(c, pid));
    ClientOkSame(c, ReportOf(c, pid));
  }

  lemma {:induction false} ClientsOkHold(up: bool, acts: seq<Action>)
    requires Legal(up, acts)
    ensures AllOk(Run(up, acts).clients)
  {
    if acts != [] {
      var front := acts[..|acts| - 1];
      ClientsOkHold(up, front);
      ClientsOkStep(Run(up, front), acts[|acts| - 1]);
    }
  }

  /** Between messages a client lists at most one process per entity, all of its current
      generation; a living process is listed exactly if it has not been sent SIGKILL; and
      every process of an earlier generation has been sent SIGKILL or had exited. */
  lemma ProcessListExact(up: bool, acts: seq<Action>, k: nat)
    requires Legal(up, acts) && k < |Run(up, acts).clients|
    ensures var c := Run(up, acts).clients[k];
      && (forall pid :: pid in c.alive && !c.pc.Stopping? ==> (pid in Pids(c.processList) <==> pid !in c.signalled))
      && (forall l, m :: 0 <= l < m < |c.processList| ==> c.processList[l].entity != c.processList[m].entity)
      && (forall m :: 0 <= m < |c.processList| ==>
            c.processList[m].entity < c.entities && c.processList[m].gen == c.gen)
      && (forall pid :: pid in c.launched && c.launched[pid].gen < c.gen ==> Gone(c, pid))
  {
    ClientsOkHold(up, acts);
    ProcessListOf(Run(up, acts).clients[k]);
  }

  lemma ProcessListOf(c: Client)
    requires ClientOk(c)
    ensures forall pid :: pid in c.alive && !c.pc.Stopping? ==> (pid in Pids(c.processList) <==> pid !in c.signalled)
    ensures forall l, m :: 0 <= l < m < |c.processList| ==> c.processList[l].entity != c.processList[m].entity
    ensures forall m :: 0 <= m < |c.processList| ==>
      c.processList[m].entity < c.entities && c.processList[m].gen == c.gen
    ensures forall pid :: pid in c.launched && c.launched[pid].gen < c.gen ==> Gone(c, pid)
  {
  }

  // ---------------------------------------------------------------- the notification flag

  /** Some crash was recorded after the last round ended. */
  ghost predicate CrashPending(log: seq<Event>) {
    exists i :: LastCrash(log, i)
  }

  ghost predicate LastCrash(log: seq<Event>, i: int) {
    0 <= i < |log| && log[i].Recorded? && forall j | 0 <= j < |log| :: i < j ==> log[j] != RoundEnded
  }

  predicate MainHolds(pc: MainPc) { !pc.Locking? && !pc.Waiting? }
  predicate HandlerHolds(pc: HandlerPc) { pc.Naming? || pc.Raising? || pc.Releasing? }

  ghost predicate MutexOk(s: State) {
    && |s.handlers| == |s.clients|
    && (s.owner == Main <==> MainHolds(s.main))
    && (forall k :: 0 <= k < |s.handlers| ==> (s.owner == Handler(k) <==> HandlerHolds(s.handlers[k])))
    && (s.owner.Handler? ==> s.owner.k < |s.handlers|)
  }

  ghost predicate FlagOk(s: State) {
    && (s.notification <==> s.log != [] && s.log[|s.log| - 1].Recorded?)
    && (s.notification && !s.main.Lowering? ==> s.message == RESTART)
    && (s.main.Dispatching? || InRound(s.main) ==> s.notification)
    && (forall k :: 0 <= k < |s.handlers| && s.handlers[k].Raising? ==> s.message == RESTART)
    && !s.main.Stuck?
    && (forall i :: 0 <= i < |s.log| && s.log[i] == RoundEnded ==> i > 0 && s.log[i - 1].Recorded?)
  }

  lemma MutexMain(s: State, launched: bool)
    requires Enabled(s, MainStep(launched)) && MutexOk(s)
    ensures MutexOk(ApplyMain(s, launched))
  {
  }

  lemma FlagMain(s: State, launched: bool)
    requires Enabled(s, MainStep(launched)) && MutexOk(s) && FlagOk(s)
    ensures FlagOk(ApplyMain(s, launched))
  {
  }

  lemma MutexHandler(s: State, k: nat)
    requires Enabled(s, HandlerStep(k)) && MutexOk(s)
    ensures MutexOk(ApplyHandler(s, k))
  {
    assert HandlerHolds(s.handlers[k]) ==> !MainHolds(s.main);
  }

  lemma FlagHandler(s: State, k: nat)
    requires Enabled(s, HandlerStep(k)) && MutexOk(s) && FlagOk(s)
    ensures FlagOk(ApplyHandler(s, k))
  {
    assert HandlerHolds(s.handlers[k]) ==> !MainHolds(s.main);
  }

  lemma FlagStep(s: State, a: Action)
    requires Enabled(s, a) && MutexOk(s) && FlagOk(s)
    ensures MutexOk(Apply(s, a)) && FlagOk(Apply(s, a))
  {
    match a
    case HandlerStep(k) =>
      MutexHandler(s, k);
      FlagHandler(s, k);
    case MainStep(launched) =>
      MutexMain(s, launched);
      FlagMain(s, launched);
    case Connect(_) =>
    case _ =>
  }

  lemma {:induction false} FlagHolds(up: bool, acts: seq<Action>)
    requires Legal(up, acts)
    ensures MutexOk(Run(up, acts)) && FlagOk(Run(up, acts))
  {
    if acts != [] {
      var front := acts[..|acts| - 1];
      FlagHolds(up, front);
      FlagStep(Run(up, front), acts[|acts| - 1]);
    }
  }

  /** No crash is lost: the flag is up exactly while a recorded crash has no later end of a
      round; the main loop never locks a mutex it holds; a round runs only with the flag up;
      and between two rounds a crash was recorded. */
  lemma NoCrashLost(up: bool, acts: seq<Action>)
    requires Legal(up, acts)
    ensures var s := Run(up, acts);
      && (s.notification <==> CrashPending(s.log))
      && (s.notification && !s.main.Lowering? ==> s.message == RESTART)
      && !s.main.Stuck?
      && (InRound(s.main) ==> s.notification)
      && (forall i :: 0 <= i < |s.log| && s.log[i] == RoundEnded ==> i > 0 && s.log[i - 1].Recorded?)
  {
    FlagHolds(up, acts);
    PendingIsLast(Run(up, acts).log);
  }

  lemma PendingIsLast(log: seq<Event>)
    ensures CrashPending(log) <==> log != [] && log[|log| - 1].Recorded?
  {
    if log != [] && log[|log| - 1].Recorded? {
      assert LastCrash(log, |log| - 1);
    }
    if CrashPending(log) {
      var i :| LastCrash(log, i);
      assert log[|log| - 1] != RoundEnded;
    }
  }

  // ---------------------------------------------------------------- crash reports are conserved

  function Sum(ns: seq<nat>): (n: nat) {
    if ns == [] then 0 else Sum(ns[..|ns| - 1]) + ns[|ns| - 1]
  }

  lemma {:induction false} SumUpdate(ns: seq<nat>, i: nat, v: nat)
    requires i < |ns|
    ensures Sum(ns[i := v]) + ns[i] == Sum(ns) + v
  {
    var n := |ns| - 1;
    if i < n {
      SumUpdate(ns[..n], i, v);
      assert ns[i := v][..n] == ns[..n][i := v];
    } else {
      assert ns[i := v][..n] == ns[..n];
    }
  }

  lemma {:induction false} SumMonotone(ns: seq<nat>, ms: seq<nat>)
    requires |ns| == |ms| && forall i :: 0 <= i < |ns| ==> ns[i] <= ms[i]
    ensures Sum(ns) <= Sum(ms)
  {
    if ns != [] {
      SumMonotone(ns[..|ns| - 1], ms[..|ms| - 1]);
    }
  }

  function RecordedBy(cs: seq<Client>): (r: seq<nat>) {
    seq(|cs|, k requires 0 <= k < |cs| => cs[k].recorded)
  }

  function LaunchedBy(cs: seq<Client>): (r: seq<nat>) {
    seq(|cs|, k requires 0 <= k < |cs| => |cs[k].launched|)
  }

  /** A CRASH taken from the socket and not yet recorded. */
  function Holding(pc: HandlerPc): nat { if pc.Wanting? || pc.Naming? || pc.Raising? then 1 else 0 }

  ghost predicate ReportsOk(c: Client, h: HandlerPc) {
    |c.reported| == c.inFlight + Holding(h) + c.recorded
  }

  ghost predicate LedgerOk(s: State) {
    && (forall k :: 0 <= k < |s.clients| == |s.handlers| ==> ReportsOk(s.clients[k], s.handlers[k]))
    && Records(s.log) == Sum(RecordedBy(s.clients))
    && Ends(s.log) + (if s.notification then 1 else 0) <= Records(s.log)
  }

  lemma LogSnoc(log: seq<Event>, e: Event)
    ensures Ends(log + [e]) == Ends(log) + (if e == RoundEnded then 1 else 0)
    ensures Records(log + [e]) == Records(log) + (if e.Recorded? then 1 else 0)
  {
    assert (log + [e])[..|log|] == log;
  }

  lemma SameRecorded(cs: seq<Client>, k: nat, c: Client)
    requires k < |cs| && c.recorded == cs[k].recorded
    ensures Sum(RecordedBy(cs[k := c])) == Sum(RecordedBy(cs))
  {
    assert RecordedBy(cs[k := c]) == RecordedBy(cs);
  }

  /** A step that changes one client, and neither the log nor what it has recorded. */
  lemma LedgerOne(s: State, s': State, k: nat)
    requires LedgerOk(s) && |s.clients| == |s.handlers| && k < |s.clients|
    requires |s'.clients| == |s.clients| && |s'.handlers| == |s.handlers|
    requires s' == s.(clients := s.clients[k := s'.clients[k]], handlers := s.handlers[k := s'.handlers[k]],
                      owner := s'.owner, message := s'.message)
    requires s'.clients[k].recorded == s.clients[k].recorded
    requires ReportsOk(s'.clients[k], s'.handlers[k])
    ensures LedgerOk(s')
  {
    SameRecorded(s.clients, k, s'.clients[k]);
  }

  lemma OneMoreRecorded(cs: seq<Client>, k: nat)
    requires k < |cs|
    ensures Sum(RecordedBy(cs[k := cs[k].(recorded := cs[k].recorded + 1)])) == Sum(RecordedBy(cs)) + 1
  {
    var v := cs[k].recorded + 1;
    SumUpdate(RecordedBy(cs), k, v);
    assert RecordedBy(cs[k := cs[k].(recorded := v)]) == RecordedBy(cs)[k := v];
  }

  lemma LedgerRaise(s: State, k: nat)
    requires Enabled(s, HandlerStep(k)) && LedgerOk(s) && s.handlers[k].Raising?
    ensures LedgerOk(ApplyHandler(s, k))
  {
    LogSnoc(s.log, Recorded(k));
    OneMoreRecorded(s.clients, k);
    assert ReportsOk(s.clients[k], s.handlers[k]);
  }

  lemma LedgerHandler(s: State, k: nat)
    requires Enabled(s, HandlerStep(k)) && LedgerOk(s)
    ensures LedgerOk(ApplyHandler(s, k))
  {
    if s.handlers[k].Raising? {
      LedgerRaise(s, k);
    } else {
      assert ReportsOk(s.clients[k], s.handlers[k]);
      var s' := ApplyHandler(s, k);
      assert s.clients[k := s.clients[k]] == s.clients;
      LedgerOne(s, s', k);
    }
  }

  lemma LedgerMain(s: State, launched: bool)
    requires Enabled(s, MainStep(launched)) && MutexOk(s) && FlagOk(s) && LedgerOk(s)
    ensures LedgerOk(ApplyMain(s, launched))
  {
    match s.main
    case Sending(i, n) =>
      if i < n && i < |s.clients| {
        SameRecorded(s.clients, i, ApplyMain(s, launched).clients[i]);
      }
    case Lowering => LogSnoc(s.log, RoundEnded);
    case _ =>
  }

  lemma ClientStepKeeps(c: Client, spawned: Option<Pid>)
    requires c.pc.Ready? ==> c.inbox != []
    ensures var c' := ApplyClient(c, spawned);
      && c'.reported == c.reported && c'.inFlight == c.inFlight && c'.recorded == c.recorded
      && c'.orders == c.orders && c'.joined == c.joined
  {
  }

  lemma LedgerClients(s: State, a: Action)
    requires Enabled(s, a) && |s.clients| == |s.handlers| && LedgerOk(s)
    requires a.Exit? || a.Reap? || (a.Report? && a.pid !in s.clients[a.k].reported)
    ensures LedgerOk(Apply(s, a))
  {
    assert ReportsOk(s.clients[a.k], s.handlers[a.k]);
    assert s.handlers[a.k := s.handlers[a.k]] == s.handlers;
    LedgerOne(s, Apply(s, a), a.k);
  }

  lemma LedgerClientStep(s: State, k: nat, spawned: Option<Pid>)
    requires Enabled(s, ClientStep(k, spawned)) && |s.clients| == |s.handlers| && LedgerOk(s)
    ensures LedgerOk(Apply(s, ClientStep(k, spawned)))
  {
    var c := ApplyClient(s.clients[k], spawned);
    ClientStepKeeps(s.clients[k], spawned);
    assert ReportsOk(s.clients[k], s.handlers[k]);
    assert s.handlers[k := s.handlers[k]] == s.handlers;
    LedgerOne(s, s.(clients := s.clients[k := c]), k);
  }

  lemma LedgerConnect(s: State, n: nat)
    requires Enabled(s, Connect(n)) && |s.clients| == |s.handlers| && LedgerOk(s)
    ensures LedgerOk(Apply(s, Connect(n)))
  {
    var cs' := Apply(s, Connect(n)).clients;
    assert RecordedBy(cs') == RecordedBy(s.clients) + [0];
    assert RecordedBy(cs')[..|s.clients|] == RecordedBy(s.clients);
  }

  lemma LedgerStep(s: State, a: Action)
    requires Enabled(s, a) && MutexOk(s) && FlagOk(s) && AllOk(s.clients) && LedgerOk(s)
    ensures LedgerOk(Apply(s, a))
  {
    match a
    case HandlerStep(k) => LedgerHandler(s, k);
    case MainStep(launched) => LedgerMain(s, launched);
    case Connect(n) => LedgerConnect(s, n);
    case ClientStep(k, spawned) => LedgerClientStep(s, k, spawned);
    case Report(k, pid) =>
      assert ClientOk(s.clients[k]) && pid in s.clients[k].reaped;
      LedgerClients(s, a);
    case _ => LedgerClients(s, a);
  }

  lemma {:induction false} LedgerHolds(up: bool, acts: seq<Action>)
    requires Legal(up, acts)
    ensures LedgerOk(Run(up, acts))
  {
    if acts != [] {
      var front := acts[..|acts| - 1];
      FlagHolds(up, front);
      ClientsOkHold(up, front);
      LedgerHolds(up, front);
      LedgerStep(Run(up, front), acts[|acts| - 1]);
    }
  }

  /** Every launched process has one monitor, which is blocked, about to report, or has sent
      its single CRASH; and every CRASH sent is in flight, in a handler's hand, or recorded. */
  lemma CrashConservation(up: bool, acts: seq<Action>, k: nat)
    requires Legal(up, acts) && k < |Run(up, acts).clients|
    ensures var s := Run(up, acts); var c := s.clients[k];
      && |s.handlers| == |s.clients|
      && c.launched.Keys == c.watched + c.reaped + c.reported && c.watched !! c.reaped !! c.reported
      && |c.launched| == |c.watched| + |c.reaped| + |c.reported|
      && |c.reported| == c.inFlight + Holding(s.handlers[k]) + c.recorded
  {
    FlagHolds(up, acts);
    ClientsOkHold(up, acts);
    LedgerHolds(up, acts);
    var c := Run(up, acts).clients[k];
    assert ClientOk(c);
    assert |c.launched| == |c.launched.Keys|;
    assert |c.watched + c.reaped + c.reported| == |c.watched| + |c.reaped| + |c.reported|;
  }

  /** Rounds begun never outnumber recorded crashes, and those never outnumber launches. */
  lemma RoundsBounded(up: bool, acts: seq<Action>)
    requires Legal(up, acts)
    ensures var s := Run(up, acts);
      Ends(s.log) + (if InRound(s.main) then 1 else 0) <= Records(s.log) <= Sum(LaunchedBy(s.clients))
  {
    var s := Run(up, acts);
    FlagHolds(up, acts);
    ClientsOkHold(up, acts);
    LedgerHolds(up, acts);
    forall k | 0 <= k < |s.clients|
      ensures RecordedBy(s.clients)[k] <= LaunchedBy(s.clients)[k]
    {
      CrashConservation(up, acts, k);
    }
    SumMonotone(RecordedBy(s.clients), LaunchedBy(s.clients));
  }

  // ---------------------------------------------------------------- every round reaches everyone

  /** Whether the round under way has already passed client `k`. */
  function Due(main: MainPc, k: nat): nat {
    if Sent(main) || (main.Sending? && k < main.i) then 1 else 0
  }

  ghost predicate OrdersOk(s: State) {
    && (s.main.Sending? ==> s.main.i <= s.main.n == |s.clients|)
    && forall k :: 0 <= k < |s.clients| ==>
         s.clients[k].orders + s.clients[k].joined == Ends(s.log) + Due(s.main, k)
  }

  /** Steps that keep the rounds ended, what is due, and what was sent to each client. */
  lemma OrdersSame(s: State, s': State)
    requires OrdersOk(s) && Ends(s'.log) == Ends(s.log) && |s'.clients| == |s.clients|
    requires s'.main.Sending? ==> s'.main.i <= s'.main.n == |s.clients|
    requires forall k :: 0 <= k < |s.clients| ==>
      && s'.clients[k].orders == s.clients[k].orders && s'.clients[k].joined == s.clients[k].joined
      && Due(s'.main, k) == Due(s.main, k)
    ensures OrdersOk(s')
  {
  }

  lemma OrdersSend(s: State)
    requires OrdersOk(s) && s.main.Sending? && s.main.i < s.main.n
    ensures OrdersOk(ApplyMain(s, false))
  {
    var i, n := s.main.i, s.main.n;
    var s' := s.(clients := s.clients[i := Ordered(s.clients[i])], main := Sending(i + 1, n));
    assert s' == ApplyMain(s, false);
    forall k | 0 <= k < |s.clients|
      ensures s'.clients[k].orders + s'.clients[k].joined == Ends(s'.log) + Due(s'.main, k)
    {
      assert s.clients[k].orders + s.clients[k].joined == Ends(s.log) + Due(s.main, k);
    }
  }

  lemma OrdersLower(s: State)
    requires OrdersOk(s) && s.main.Lowering?
    ensures OrdersOk(ApplyMain(s, false))
  {
    LogSnoc(s.log, RoundEnded);
  }

  lemma OrdersMain(s: State, launched: bool)
    requires OrdersOk(s)
    ensures OrdersOk(ApplyMain(s, launched))
  {
    if s.main.Lowering? {
      OrdersLower(s);
    } else if s.main.Sending? && s.main.i < s.main.n {
      OrdersSend(s);
    } else {
      OrdersRest(s, launched);
    }
  }

  lemma OrdersRest(s: State, launched: bool)
    requires OrdersOk(s) && !s.main.Lowering? && !(s.main.Sending? && s.main.i < s.main.n)
    ensures OrdersOk(ApplyMain(s, launched))
  {
    var s' := ApplyMain(s, launched);
    assert s'.clients == s.clients && s'.log == s.log;
    assert s.main.Sending? ==> s.main.i == |s.clients|;
    OrdersSame(s, s');
  }

  lemma OrdersHandler(s: State, k: nat)
    requires Enabled(s, HandlerStep(k)) && OrdersOk(s)
    ensures OrdersOk(ApplyHandler(s, k))
  {
    LogSnoc(s.log, Recorded(k));
    HandlerKeeps(s, k);
    OrdersSame(s, ApplyHandler(s, k));
  }

  lemma HandlerKeeps(s: State, k: nat)
    requires Enabled(s, HandlerStep(k))
    ensures var s' := ApplyHandler(s, k);
      && s'.main == s.main && |s'.clients| == |s.clients|
      && (s'.log == s.log || s'.log == s.log + [Recorded(k)])
      && forall l :: 0 <= l < |s.clients| ==>
           s'.clients[l].orders == s.clients[l].orders && s'.clients[l].joined == s.clients[l].joined
  {
  }

  lemma OrdersClientStep(s: State, k: nat, spawned: Option<Pid>)
    requires Enabled(s, ClientStep(k, spawned)) && OrdersOk(s)
    ensures OrdersOk(Apply(s, ClientStep(k, spawned)))
  {
    ClientStepKeeps(s.clients[k], spawned);
    var c := ApplyClient(s.clients[k], spawned);
    OrdersSame(s, s.(clients := s.clients[k := c]));
  }

  lemma OrdersConnect(s: State, n: nat)
    requires Enabled(s, Connect(n)) && OrdersOk(s)
    ensures OrdersOk(Apply(s, Connect(n)))
  {
  }

  lemma OrdersStep(s: State, a: Action)
    requires Enabled(s, a) && OrdersOk(s)
    ensures OrdersOk(Apply(s, a))
  {
    match a
    case MainStep(launched) => OrdersMain(s, launched);
    case Connect(n) => OrdersConnect(s, n);
    case HandlerStep(k) => OrdersHandler(s, k);
    case ClientStep(k, spawned) => OrdersClientStep(s, k, spawned);
    case _ => OrdersSame(s, Apply(s, a));
  }

  lemma {:induction false} OrdersHold(up: bool, acts: seq<Action>)
    requires Legal(up, acts)
    ensures OrdersOk(Run(up, acts))
  {
    if acts != [] {
      var front := acts[..|acts| - 1];
      OrdersHold(up, front);
      OrdersStep(Run(up, front), acts[|acts| - 1]);
    }
  }

  /** Outside a round each client has been sent exactly one RESTART per round that ended
      since it connected. */
  lemma EveryRoundReachesEveryClient(up: bool, acts: seq<Action>, k: nat)
    requires Legal(up, acts) && k < |Run(up, acts).clients| && !InRound(Run(up, acts).main)
    ensures var s := Run(up, acts);
      s.clients[k].orders == Ends(s.log) - s.clients[k].joined
  {
    OrdersHold(up, acts);
  }
}
