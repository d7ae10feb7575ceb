/** Restarting never gets stuck: whenever a crash is recorded and the proxy can be stopped,
    the thread that holds the mutex and the main loop can finish a round by themselves. */
module RestartProgress {
  import opened Base
  import opened RestartProtocol
  import opened RestartTheorems

  /** The main loop gives up only over a proxy that could not be launched. */
  lemma {:induction false} AbortsWithoutProxy(up: bool, acts: seq<Action>)
    requires Legal(up, acts)
    ensures Run(up, acts).main.Aborted? ==> !Run(up, acts).proxyUp
  {
    if acts != [] {
      var front := acts[..|acts| - 1];
      AbortsWithoutProxy(up, front);
      AbortStep(Run(up, front), acts[|acts| - 1]);
    }
  }

  lemma AbortStep(s: State, a: Action)
    requires Enabled(s, a) && (s.main.Aborted? ==> !s.proxyUp)
    ensures Apply(s, a).main.Aborted? ==> !Apply(s, a).proxyUp
  {
  }

  /** Steps left until the round under way, or the next one, ends. */
  function MainLeft(s: State): nat {
    match s.main
    case Lowering => 1
    case Clearing => 2
    case Sending(i, n) => 3 + if i < n then n - i else 0
    case LaunchingProxy => 4 + |s.clients|
    case StoppingProxy => 5 + |s.clients|
    case Dispatching => 6 + |s.clients|
    case Testing => 7 + |s.clients|
    case Locking => 8 + |s.clients|
    case Waiting => 9 + |s.clients|
    case Unlocking => 9 + |s.clients|
    case _ => 0
  }

  function HandlerLeft(s: State): nat {
    if s.owner.Handler? && s.owner.k < |s.handlers| then
      match s.handlers[s.owner.k]
      case Naming => 3
      case Raising => 2
      case _ => 1
    else 0
  }

  function Left(s: State): nat { MainLeft(s) + HandlerLeft(s) }

  ghost predicate CanRound(s: State) {
    MutexOk(s) && FlagOk(s) && s.notification && s.proxyUp && !s.main.Aborted?
  }

  /** The next step of the mutex holder, or of the main loop if nobody holds it. */
  function NextStep(s: State): Action {
    if s.owner.Handler? then HandlerStep(s.owner.k) else MainStep(true)
  }

  lemma NextHandler(s: State)
    requires CanRound(s) && s.owner.Handler?
    ensures Enabled(s, NextStep(s))
    ensures var s' := Apply(s, NextStep(s));
      && CanRound(s') && Left(s') < Left(s) && Ends(s'.log) == Ends(s.log)
  {
    var k := s.owner.k;
    assert HandlerHolds(s.handlers[k]) && !MainHolds(s.main);
    MutexHandler(s, k);
    FlagHandler(s, k);
    LogSnoc(s.log, Recorded(k));
  }

  lemma NextMain(s: State)
    requires CanRound(s) && !s.owner.Handler? && !s.main.Lowering?
    ensures Enabled(s, NextStep(s))
    ensures var s' := Apply(s, NextStep(s));
      && CanRound(s') && Left(s') < Left(s) && Ends(s'.log) == Ends(s.log)
  {
    MutexMain(s, true);
    FlagMain(s, true);
  }

  lemma Lowers(s: State)
    requires CanRound(s) && s.main.Lowering?
    ensures !s.owner.Handler? && Enabled(s, NextStep(s))
    ensures Ends(Apply(s, NextStep(s)).log) == Ends(s.log) + 1
  {
    assert s.owner == Main;
    LogSnoc(s.log, RoundEnded);
  }

  /** `n` steps of the mutex holder and the main loop, each enabled, lead from `s` to `s'`. */
  ghost predicate Alone(s: State, n: nat, s': State)
    decreases n
  {
    if n == 0 then s' == s else Enabled(s, NextStep(s)) && Alone(Apply(s, NextStep(s)), n - 1, s')
  }

  lemma {:induction false} Finish(s: State) returns (n: nat, s': State)
    requires CanRound(s)
    ensures Alone(s, n, s') && Ends(s'.log) == Ends(s.log) + 1
    decreases Left(s)
  {
    var next;
    if s.main.Lowering? {
      Lowers(s);
      next := Apply(s, NextStep(s));
      n, s' := 0, next;
    } else {
      if s.owner.Handler? { NextHandler(s); } else { NextMain(s); }
      next := Apply(s, NextStep(s));
      n, s' := Finish(next);
    }
    n := n + 1;
    assert Alone(next, n - 1, s');
  }

  lemma OneStep(up: bool, acts: seq<Action>, a: Action)
    requires Legal(up, acts) && Enabled(Run(up, acts), a)
    ensures Legal(up, acts + [a]) && Run(up, acts + [a]) == Apply(Run(up, acts), a)
  {
    assert (acts + [a])[..|acts + [a]| - 1] == acts;
  }

  lemma {:induction false} AloneIsLegal(up: bool, acts: seq<Action>, n: nat, s': State) returns (all: seq<Action>)
    requires Legal(up, acts) && Alone(Run(up, acts), n, s')
    ensures acts <= all && Legal(up, all) && Run(up, all) == s'
    decreases n
  {
    if n == 0 {
      all := acts;
    } else {
      var a := NextStep(Run(up, acts));
      OneStep(up, acts, a);
      all := AloneIsLegal(up, acts + [a], n - 1, s');
    }
  }

  /** From every reachable state with the flag up and the proxy launched, a state in which one
      more round has ended is reached by steps of the mutex holder and the main loop alone,
      however the other threads stand. */
  lemma RoundCanEnd(up: bool, acts: seq<Action>) returns (n: nat, s': State, all: seq<Action>)
    requires Legal(up, acts) && Run(up, acts).notification && Run(up, acts).proxyUp
    ensures Alone(Run(up, acts), n, s') && Ends(s'.log) == Ends(Run(up, acts).log) + 1
    ensures acts <= all && Legal(up, all) && Run(up, all) == s'
  {
    FlagHolds(up, acts);
    AbortsWithoutProxy(up, acts);
    n, s' := Finish(Run(up, acts));
    all := AloneIsLegal(up, acts, n, s');
  }
}
