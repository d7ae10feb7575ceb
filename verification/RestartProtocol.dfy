/** The crash/restart protocol between the server launcher (luncher/server/src/Server.cpp)
    and the client launchers (luncher/client/src/Client.cpp), as one state machine.

    A step is what a thread does between two accesses to shared state; `send_message` and
    `recv_message` move whole messages. Two assumptions are built in: a client's IP and
    START are on their way before a round that includes it begins to send, and the kernel
    never reuses a pid. */
module RestartProtocol {
  import opened Base

  type Pid = nat

  // ---------------------------------------------------------------- client launchers

  datatype Order = Start | Restart
  datatype ClientPc = Ready | Stopping(i: nat) | Starting(j: nat)

  /** A launched process: its pid, the entity it runs and the value of `index`. */
  datatype Proc = Proc(pid: Pid, entity: nat, gen: nat)

  datatype Client = Client(
    entities: nat,
    inbox: seq<Order>,
    pc: ClientPc,
    gen: nat,
    processList: seq<Proc>,
    launched: map<Pid, Proc>,
    alive: set<Pid>,
    signalled: set<Pid>,   // sent SIGKILL while alive
    crashed: set<Pid>,     // exited without having been sent SIGKILL
    watched: set<Pid>,     // monitor thread blocked in waitpid
    reaped: set<Pid>,      // waitpid returned, CRASH not sent yet
    reported: set<Pid>,    // CRASH sent
    inFlight: nat,         // CRASH messages the server has not read
    recorded: nat,         // CRASH messages the server has acted on
    orders: nat,           // RESTART messages sent to this client
    joined: nat)           // rounds over, or past sending, when it connected

  function NewClient(entities: nat, joined: nat): Client {
    Client(entities, [Start], Ready, 0, [], map[], {}, {}, {}, {}, {}, {}, 0, 0, 0, joined)
  }

  // ---------------------------------------------------------------- server launcher

  datatype MainPc =
    | Locking | Testing | Waiting | Dispatching
    | StoppingProxy | LaunchingProxy | Sending(i: nat, n: nat) | Clearing | Lowering | Unlocking
    | Stuck     // locks the mutex it already holds
    | Aborted   // restarts a proxy that could not be launched

  datatype HandlerPc = Reading | Wanting | Naming | Raising | Releasing
  datatype Owner = Nobody | Main | Handler(k: nat)
  datatype Event = Recorded(k: nat) | RoundEnded

  const RESTART := "RESTART"

  datatype State = State(
    clients: seq<Client>,
    handlers: seq<HandlerPc>,
    owner: Owner,              // of _notificatioMutex
    main: MainPc,
    notification: bool,
    message: string,
    proxyUp: bool,
    log: seq<Event>)

  function Init(proxyUp: bool): State {
    State([], [], Nobody, Locking, false, "", proxyUp, [])
  }

  function Ends(log: seq<Event>): (n: nat) {
    if log == [] then 0 else Ends(log[..|log| - 1]) + (if log[|log| - 1] == RoundEnded then 1 else 0)
  }

  function Records(log: seq<Event>): (n: nat) {
    if log == [] then 0 else Records(log[..|log| - 1]) + (if log[|log| - 1].Recorded? then 1 else 0)
  }

  /** Past the point where the round has sent RESTART to everyone it will. */
  predicate Sent(pc: MainPc) { pc.Clearing? || pc.Lowering? }

  predicate InRound(pc: MainPc) {
    pc.StoppingProxy? || pc.LaunchingProxy? || pc.Sending? || pc.Clearing? || pc.Lowering?
  }

  // ---------------------------------------------------------------- steps

  datatype Action =
    | Connect(entities: nat)
    | MainStep(launched: bool)
    | HandlerStep(k: nat)
    | ClientStep(k: nat, spawned: Option<Pid>)
    | Exit(k: nat, pid: Pid)
    | Reap(k: nat, pid: Pid)
    | Report(k: nat, pid: Pid)

  ghost predicate Enabled(s: State, a: Action) {
    match a
    case Connect(_) => !s.main.Sending?
    case MainStep(_) => (s.main.Locking? ==> s.owner == Nobody) && !s.main.Stuck? && !s.main.Aborted?
    case HandlerStep(k) =>
      && k < |s.handlers| == |s.clients|
      && (s.handlers[k].Reading? ==> s.clients[k].inFlight > 0)
      && (s.handlers[k].Wanting? ==> s.owner == Nobody)
    case ClientStep(k, spawned) =>
      && k < |s.clients|
      && var c := s.clients[k];
         (c.pc.Ready? ==> c.inbox != []) && (spawned.Some? ==> spawned.value !in c.launched)
    case Exit(k, pid) => k < |s.clients| && pid in s.clients[k].alive
    case Reap(k, pid) => k < |s.clients| && pid in s.clients[k].watched && pid !in s.clients[k].alive
    case Report(k, pid) => k < |s.clients| && pid in s.clients[k].reaped
  }

  function Ordered(c: Client): Client { c.(inbox := c.inbox + [Restart], orders := c.orders + 1) }

  /** The first `n` clients have been sent RESTART. */
  function AllOrdered(cs: seq<Client>, n: nat): (r: seq<Client>) {
    seq(|cs|, k requires 0 <= k < |cs| => if k < n then Ordered(cs[k]) else cs[k])
  }

  /** One step of the main loop; while it waits, any wakeup, signalled or spurious, makes it
      lock again and test. */
  function ApplyMain(s: State, launched: bool): State {
    match s.main
    case Locking => s.(owner := Main, main := Testing)
    case Testing => if s.notification then s.(main := Dispatching) else s.(owner := Nobody, main := Waiting)
    case Waiting => s.(main := Locking)
    case Dispatching => s.(main := if s.message == RESTART then StoppingProxy else Stuck)
    case StoppingProxy => s.(main := if s.proxyUp then LaunchingProxy else Aborted)
    case LaunchingProxy => s.(proxyUp := launched, main := Sending(0, |s.clients|))
    case Sending(i, n) =>
      if i < n && i < |s.clients| then
        s.(clients := s.clients[i := Ordered(s.clients[i])], main := Sending(i + 1, n))
      else s.(main := Clearing)
    case Clearing => s.(message := "", main := Lowering)
    case Lowering => s.(notification := false, log := s.log + [RoundEnded], main := Unlocking)
    case Unlocking => s.(owner := Nobody, main := Locking)
    case Stuck => s
    case Aborted => s
  }

  function ApplyHandler(s: State, k: nat): State
    requires k < |s.handlers| == |s.clients|
    requires s.handlers[k].Reading? ==> s.clients[k].inFlight > 0
  {
    var c := s.clients[k];
    match s.handlers[k]
    case Reading =>
      s.(clients := s.clients[k := c.(inFlight := c.inFlight - 1)], handlers := s.handlers[k := Wanting])
    case Wanting => s.(owner := Handler(k), handlers := s.handlers[k := Naming])
    case Naming => s.(message := RESTART, handlers := s.handlers[k := Raising])
    case Raising =>
      s.(notification := true, log := s.log + [Recorded(k)], handlers := s.handlers[k := Releasing],
         clients := s.clients[k := c.(recorded := c.recorded + 1)])
    case Releasing => s.(owner := Nobody, handlers := s.handlers[k := Reading])
  }

  /** One iteration of stop_processes: SIGKILL reaches the process unless it has exited. */
  function StopOne(c: Client, i: nat): Client
    requires i < |c.processList|
  {
    var pid := c.processList[i].pid;
    c.(signalled := if pid in c.alive then c.signalled + {pid} else c.signalled)
  }

  /** One iteration of start_entities: launch an entity, list its pid, start its monitor; if
      the launch failed, go on. */
  function StartOne(c: Client, j: nat, pid: Option<Pid>): Client {
    if pid.None? then c
    else
      var p := Proc(pid.value, j, c.gen);
      c.(processList := c.processList + [p], launched := c.launched[pid.value := p],
         alive := c.alive + {pid.value}, watched := c.watched + {pid.value})
  }

  function ApplyClient(c: Client, pid: Option<Pid>): Client
    requires c.pc.Ready? ==> c.inbox != []
  {
    match c.pc
    case Ready =>
      var c' := c.(inbox := c.inbox[1..]);
      if c.inbox[0] == Start then c'.(gen := c.gen + 1, pc := Starting(0)) else c'.(pc := Stopping(0))
    case Stopping(i) =>
      if i < |c.processList| then StopOne(c, i).(pc := Stopping(i + 1))
      else c.(processList := [], gen := c.gen + 1, pc := Starting(0))
    case Starting(j) =>
      if j < c.entities then StartOne(c, j, pid).(pc := Starting(j + 1)) else c.(pc := Ready)
  }

  function ExitOf(c: Client, pid: Pid): Client {
    c.(alive := c.alive - {pid}, crashed := if pid in c.signalled then c.crashed else c.crashed + {pid})
  }

  function ReapOf(c: Client, pid: Pid): Client {
    c.(watched := c.watched - {pid}, reaped := c.reaped + {pid})
  }

  function ReportOf(c: Client, pid: Pid): Client {
    c.(reaped := c.reaped - {pid}, reported := c.reported + {pid}, inFlight := c.inFlight + 1)
  }

  ghost function Apply(s: State, a: Action): State
    requires Enabled(s, a)
  {
    match a
    case Connect(n) =>
      var joined := Ends(s.log) + (if Sent(s.main) then 1 else 0);
      s.(clients := s.clients + [NewClient(n, joined)], handlers := s.handlers + [Reading])
    case MainStep(launched) => ApplyMain(s, launched)
    case HandlerStep(k) => ApplyHandler(s, k)
    case ClientStep(k, spawned) => s.(clients := s.clients[k := ApplyClient(s.clients[k], spawned)])
    case Exit(k, pid) => s.(clients := s.clients[k := ExitOf(s.clients[k], pid)])
    case Reap(k, pid) => s.(clients := s.clients[k := ReapOf(s.clients[k], pid)])
    case Report(k, pid) => s.(clients := s.clients[k := ReportOf(s.clients[k], pid)])
  }

  ghost function Run(up: bool, acts: seq<Action>): State
    requires Legal(up, acts)
    decreases acts, 1
  {
    if acts == [] then Init(up)
    else Apply(Run(up, acts[..|acts| - 1]), acts[|acts| - 1])
  }

  ghost predicate Legal(up: bool, acts: seq<Action>)
    decreases acts, 0
  {
    acts == [] ||
    (Legal(up, acts[..|acts| - 1]) && Enabled(Run(up, acts[..|acts| - 1]), acts[|acts| - 1]))
  }
}
