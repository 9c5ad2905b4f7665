/** The life of one loaded module (pkg/loader/module.go) and the loader's table of them
    (pkg/loader/loader.go). A goroutine per start writes the status once the script is over. The
    module has one socket, with one router, for all its starts. */
module Lifecycle {
  datatype Status = Unknown | Loaded | Running | Stopped | Freed

  /** `own`: the goroutine of the last start has still to write its status. `stale` goroutines of
      earlier starts have still to write theirs. `registered`: the module's socket is in the hub;
      `down`: its router is closed. `crashed`: the program is gone, because a channel was closed a
      second time. */
  datatype Life = Life(status: Status, own: bool, stale: nat, registered: bool, down: bool, crashed: bool)

  const NEW_LIFE := Life(Loaded, false, 0, false, false, false)

  function Pending(l: Life): nat {
    l.stale + if l.own then 1 else 0
  }

  /** Closes the control channel of the router, which nothing opens again. */
  function CloseSocket(l: Life): Life {
    if l.down then l.(crashed := true) else l.(down := true)
  }

  /** `added`: nothing else keeps the hub from accepting the socket; it never accepts a socket
      that is still registered. A socket that is refused is closed. */
  function Start(l: Life, added: bool): (Life, bool) {
    if l.crashed || !(l.status.Loaded? || l.status.Stopped?) then (l, false)
    else if !added || l.registered then (CloseSocket(l), false)
    else (l.(status := Running, own := true, stale := Pending(l), registered := true), true)
  }

  /** `removed`: the hub lets go of the socket, and closes it first. */
  function Stop(l: Life, removed: bool): (Life, bool) {
    if l.crashed then (l, false)
    else if l.status.Loaded? then (l.(status := Stopped), true)
    else if !l.status.Running? || !removed then (l, false)
    else Removed(l, Stopped)
  }

  function Removed(l: Life, status: Status): (Life, bool) {
    var l' := CloseSocket(l);
    if l'.crashed then (l', false) else (l'.(status := status, registered := false), true)
  }

  /** Waits for all pending goroutines before the module is freed. */
  function Close(l: Life, removed: bool): (Life, bool) {
    if l.crashed then (l, false)
    else if l.status.Running? then
      if !removed then (l, false)
      else
        var (l', ok) := Removed(l, Freed);
        if ok then (l'.(own := false, stale := 0), true) else (l', false)
    else if l.status.Stopped? then (l.(status := Freed, own := false, stale := 0), true)
    else (l, false)
  }

  /** The goroutine of the last start writes the status: its script is over. */
  function ScriptOver(l: Life): Life {
    if l.crashed || !l.own then l else l.(status := Stopped, own := false)
  }

  /** A goroutine of an earlier start writes the status, however late. */
  function LateWrite(l: Life): Life {
    if l.crashed || l.stale == 0 then l else l.(status := Stopped, stale := l.stale - 1)
  }

  datatype Event =
    | StartModule(added: bool)
    | StopModule(removed: bool)
    | CloseModule(removed: bool)
    | ScriptEnds
    | StaleWrite

  function Step(l: Life, e: Event): Life {
    match e
    case StartModule(added) => Start(l, added).0
    case StopModule(removed) => Stop(l, removed).0
    case CloseModule(removed) => Close(l, removed).0
    case ScriptEnds => ScriptOver(l)
    case StaleWrite => LateWrite(l)
  }

  function Run(run: seq<Event>): Life
    decreases |run|
  {
    if run == [] then NEW_LIFE else Step(Run(run[..|run| - 1]), run[|run| - 1])
  }

  predicate Sane(l: Life) {
    && l.status != Unknown
    && (l.status.Running? ==> l.registered)
    && (l.status.Freed? || l.status.Loaded? ==> Pending(l) == 0)
    && (l.status.Loaded? ==> !l.registered)
    && (l.stale > 0 || (l.own && !l.registered) || l.crashed ==> l.down)
  }

  lemma StepSane(l: Life, e: Event)
    requires Sane(l)
    ensures Sane(Step(l, e)) && (l.status.Freed? ==> Step(l, e) == l)
  {
  }

  /** In every interleaving of calls and late status writes a module is loaded, running, stopped
      or freed, and a running one has its socket registered. */
  lemma {:induction false} EveryRunSane(run: seq<Event>)
    ensures Sane(Run(run))
    decreases |run|
  {
    if run != [] {
      EveryRunSane(run[..|run| - 1]);
      StepSane(Run(run[..|run| - 1]), run[|run| - 1]);
    }
  }

  /** A freed module stays freed: nothing is pending that could still write its status. */
  lemma {:induction false} FreedIsTerminal(run: seq<Event>, more: seq<Event>)
    requires Run(run).status.Freed?
    ensures Run(run + more) == Run(run)
    decreases |more|
  {
    if more == [] {
      assert run + more == run;
    } else {
      var n := |more| - 1;
      FreedIsTerminal(run, more[..n]);
      EveryRunSane(run);
      StepSane(Run(run), more[n]);
      assert (run + more)[..|run + more| - 1] == run + more[..n];
    }
  }

  // ---- What happened since the last start ----

  /** Since the last start that succeeded: did the script end by itself, did a goroutine of an
      earlier start write its status, was the module stopped (by a stop, or by being closed while
      running)? Before the first start the module counts as stopped. */
  datatype Since = Since(ended: bool, late: bool, stopped: bool)

  function Watch(run: seq<Event>): Since
    decreases |run|
  {
    if run == [] then Since(false, false, true)
    else
      var n := |run| - 1;
      WatchOne(Run(run[..n]), Watch(run[..n]), run[n])
  }

  function WatchOne(l: Life, w: Since, e: Event): Since {
    if l.crashed then w
    else
      match e
      case StartModule(added) => if Start(l, added).1 then Since(false, false, false) else w
      case StopModule(removed) => if Stop(l, removed).1 then w.(stopped := true) else w
      case CloseModule(removed) => if l.status.Running? && Close(l, removed).1 then w.(stopped := true) else w
      case ScriptEnds => if l.own && !w.stopped then w.(ended := true) else w
      case StaleWrite => if l.stale > 0 && !w.stopped then w.(late := true) else w
  }

  lemma OneMore(run: seq<Event>, e: Event)
    ensures Run(run + [e]) == Step(Run(run), e)
    ensures Watch(run + [e]) == WatchOne(Run(run), Watch(run), e)
  {
    assert (run + [e])[..|run|] == run;
  }

  /** The status, and what the hub holds, told from what happened. A late write comes only after
      an earlier start was stopped. */
  ghost predicate Told(l: Life, w: Since) {
    && (l.registered <==> !w.stopped)
    && (l.status.Running? <==> !w.stopped && !w.ended && !w.late)
    && (!w.stopped && !w.ended && !l.status.Freed? ==> l.own)
    && (w.late ==> l.down)
  }

  lemma StepTold(l: Life, w: Since, e: Event)
    requires Sane(l) && Told(l, w)
    ensures Told(Step(l, e), WatchOne(l, w, e))
  {
  }

  lemma {:induction false} EveryRunTold(run: seq<Event>)
    ensures Told(Run(run), Watch(run))
    decreases |run|
  {
    if run != [] {
      var n := |run| - 1;
      EveryRunTold(run[..n]);
      EveryRunSane(run[..n]);
      StepTold(Run(run[..n]), Watch(run[..n]), run[n]);
    }
  }

  /** While the script of the last start still runs, the module shows as running if and only if no
      goroutine of an earlier start has written its status since. */
  lemma ShowsRunningIff(run: seq<Event>)
    requires !Watch(run).stopped && !Watch(run).ended
    ensures Run(run).status.Running? <==> !Watch(run).late
  {
    EveryRunTold(run);
  }

  /** It does happen: stopped and started again before the goroutine of the first start got to
      write its status. */
  lemma LateWriteHides()
    ensures var run := [StartModule(true), StopModule(true), StartModule(true), StaleWrite];
            !Watch(run).stopped && !Watch(run).ended && Run(run) == Life(Stopped, true, 0, true, true, false)
  {
    Restarted();
    var run := [StartModule(true), StopModule(true), StartModule(true)];
    OneMore(run, StaleWrite);
    assert run + [StaleWrite] == [StartModule(true), StopModule(true), StartModule(true), StaleWrite];
  }

  lemma Restarted()
    ensures var run := [StartModule(true), StopModule(true), StartModule(true)];
            Watch(run) == Since(false, false, false) && Run(run) == Life(Running, true, 1, true, true, false)
  {
    var run1, run2 := [StartModule(true)], [StartModule(true), StopModule(true)];
    OneMore([], StartModule(true));
    assert [] + [StartModule(true)] == run1;
    assert Run(run1) == Life(Running, true, 0, true, false, false) && Watch(run1) == Since(false, false, false);
    OneMore(run1, StopModule(true));
    assert run1 + [StopModule(true)] == run2;
    assert Run(run2) == Life(Stopped, true, 0, false, true, false) && Watch(run2) == Since(false, false, true);
    OneMore(run2, StartModule(true));
    assert run2 + [StartModule(true)] == [StartModule(true), StopModule(true), StartModule(true)];
  }

  /** A freed module leaves its socket in the hub if and only if, when it was closed, it had been
      started and its status written behind its back: its script had ended by itself or a late
      write had come. Only a module that shows as running is taken out of the hub. */
  lemma FreedRegisteredIff(run: seq<Event>)
    requires Run(run).status.Freed?
    ensures Run(run).registered <==> !Watch(run).stopped && (Watch(run).ended || Watch(run).late)
  {
    EveryRunTold(run);
  }

  lemma EndedStaysRegistered()
    ensures var run := [StartModule(true), ScriptEnds, CloseModule(true)];
            Run(run).status.Freed? && Run(run).registered
  {
    var run1, run2 := [StartModule(true)], [StartModule(true), ScriptEnds];
    OneMore([], StartModule(true));
    assert [] + [StartModule(true)] == run1;
    assert Run(run1) == Life(Running, true, 0, true, false, false);
    OneMore(run1, ScriptEnds);
    assert run1 + [ScriptEnds] == run2;
    assert Run(run2) == Life(Stopped, false, 0, true, false, false);
    OneMore(run2, CloseModule(true));
    assert run2 + [CloseModule(true)] == [StartModule(true), ScriptEnds, CloseModule(true)];
  }

  // ---- When the program crashes ----

  /** The event closes the router: a start that is refused, or a stop or close that takes the
      socket of a running module out of the hub. */
  predicate Closes(l: Life, e: Event) {
    && !l.crashed
    && match e
       case StartModule(added) => (l.status.Loaded? || l.status.Stopped?) && (!added || l.registered)
       case StopModule(removed) => l.status.Running? && removed
       case CloseModule(removed) => l.status.Running? && removed
       case _ => false
  }

  ghost predicate ClosesAt(run: seq<Event>, i: nat)
    requires i < |run|
  {
    Closes(Run(run[..i]), run[i])
  }

  ghost predicate ClosedBefore(run: seq<Event>) {
    exists i :: 0 <= i < |run| && ClosesAt(run, i)
  }

  lemma StepDown(l: Life, e: Event)
    requires Sane(l)
    ensures Step(l, e).down <==> l.down || Closes(l, e)
  {
  }

  lemma ClosesAtPrefix(run: seq<Event>, n: nat, i: nat)
    requires i < n <= |run|
    ensures ClosesAt(run[..n], i) <==> ClosesAt(run, i)
  {
    assert run[..n][..i] == run[..i];
  }

  lemma ClosedBeforeNext(run: seq<Event>)
    requires run != []
    ensures ClosedBefore(run) <==> ClosedBefore(run[..|run| - 1]) || ClosesAt(run, |run| - 1)
  {
    var n := |run| - 1;
    forall i | 0 <= i < n ensures ClosesAt(run[..n], i) <==> ClosesAt(run, i) {
      ClosesAtPrefix(run, n, i);
    }
  }

  lemma {:induction false} DownIff(run: seq<Event>)
    ensures Run(run).down <==> ClosedBefore(run)
    decreases |run|
  {
    if run != [] {
      var n := |run| - 1;
      DownIff(run[..n]);
      EveryRunSane(run[..n]);
      StepDown(Run(run[..n]), run[n]);
      ClosedBeforeNext(run);
    }
  }

  /** In every run, an event crashes the program if and only if it closes the module's router and
      an earlier event of the run closed it before. */
  lemma CrashesIff(run: seq<Event>, e: Event)
    requires !Run(run).crashed
    ensures Run(run + [e]).crashed <==> Closes(Run(run), e) && ClosedBefore(run)
  {
    OneMore(run, e);
    DownIff(run);
  }

  /** So a module that was stopped and started again cannot be stopped or closed while it runs: as
      soon as the hub agrees to let it go, the program crashes. */
  lemma RestartedCannotStop(run: seq<Event>)
    requires Run(run).status.Running? && !Run(run).crashed && ClosedBefore(run)
    ensures Run(run + [StopModule(true)]).crashed && Run(run + [CloseModule(true)]).crashed
  {
    CrashesIff(run, StopModule(true));
    CrashesIff(run, CloseModule(true));
  }

  lemma StopTwiceCrashes()
    ensures Run([StartModule(true), StopModule(true), StartModule(true), StopModule(true)]).crashed
  {
    Restarted();
    var run := [StartModule(true), StopModule(true), StartModule(true)];
    DownIff(run);
    RestartedCannotStop(run);
    assert run + [StopModule(true)] == [StartModule(true), StopModule(true), StartModule(true), StopModule(true)];
  }

  /** A module whose script still runs but that does not show as running cannot be stopped: the
      call is refused. Starting it crashes the program. */
  lemma HiddenIsStuck(run: seq<Event>, outcome: bool)
    requires !Run(run).crashed && !Run(run).status.Freed? && !Watch(run).stopped && Watch(run).late
    ensures Stop(Run(run), outcome) == (Run(run), false)
    ensures Run(run + [StartModule(outcome)]).crashed
  {
    EveryRunTold(run);
    EveryRunSane(run);
    OneMore(run, StartModule(outcome));
  }

  // ---- One module as the program keeps it ----

  class ModuleState {
    var status: Status
    var wg: nat
    var registered: bool
    var down: bool
    var crashed: bool
    ghost var own: bool // one of the goroutines waited for is that of the last start

    constructor ()
      ensures Valid() && View() == NEW_LIFE
    {
      status, wg, registered, own, down, crashed := Loaded, 0, false, false, false, false;
    }

    ghost predicate Valid()
      reads this
    {
      own ==> wg > 0
    }

    ghost function View(): Life
      requires Valid()
      reads this
    {
      Life(status, own, if own then wg - 1 else wg, registered, down, crashed)
    }

    /** The close of the socket; false when the program does not survive it. */
    method CloseRouter() returns (survived: bool)
      requires Valid()
      modifies this`down, this`crashed
      ensures Valid() && View() == CloseSocket(old(View())) && survived == !old(down)
    {
      if down {
        crashed := true;
        return false;
      }
      down := true;
      return true;
    }

    method StartState(added: bool) returns (ok: bool)
      requires Valid()
      modifies this
      ensures Valid() && (View(), ok) == Start(old(View()), added)
    {
      if crashed {
        return false;
      }
      if status == Loaded || status == Stopped {
        if !added || registered {
          var _ := CloseRouter();
          return false;
        }
        registered := true;
        wg, own := wg + 1, true;
        status := Running;
        return true;
      }
      return false;
    }

    method StopState(removed: bool) returns (ok: bool)
      requires Valid()
      modifies this
      ensures Valid() && (View(), ok) == Stop(old(View()), removed)
    {
      if crashed {
        return false;
      }
      match status {
        case Loaded =>
          status := Stopped;
        case Running =>
          if !removed {
            return false;
          }
          var survived := CloseRouter();
          if !survived {
            return false;
          }
          registered := false;
          status := Stopped;
        case _ =>
          return false;
      }
      return true;
    }

    /** The end of a goroutine: that of the last start, or of an earlier one. */
    method GoroutineEnds(ghost last: bool)
      requires Valid() && !crashed && wg > 0 && (if last then own else own ==> wg > 1)
      modifies this`status, this`wg, this`own
      ensures Valid() && wg == old(wg) - 1
      ensures View() == if last then ScriptOver(old(View())) else LateWrite(old(View()))
    {
      status := Stopped;
      wg := wg - 1;
      if last {
        own := false;
      }
    }

    method CloseState(removed: bool) returns (ok: bool)
      requires Valid()
      modifies this
      ensures Valid() && (View(), ok) == Close(old(View()), removed)
    {
      if crashed {
        return false;
      }
      if status == Running {
        if !removed {
          return false;
        }
        var survived := CloseRouter();
        if !survived {
          return false;
        }
        registered := false;
        status := Stopped;
      }
      if status == Stopped {
        WaitForAll();
        status := Freed;
        return true;
      }
      return false;
    }

    method WaitForAll()
      requires Valid() && !crashed && status == Stopped
      modifies this`status, this`wg, this`own
      ensures status == Stopped && wg == 0 && Valid()
    {
      while wg > 0
        invariant Valid() && status == Stopped && !crashed
      {
        GoroutineEnds(own);
      }
    }
  }

  // ---- The loader's table ----

  type States = map<string, Life>

  ghost predicate AllSane(states: States) {
    forall id :: id in states ==> Sane(states[id]) && !states[id].status.Freed?
  }

  /** The program lives, and no module runs on a router that is closed: none was started again. */
  ghost predicate AllFresh(states: States) {
    forall id :: id in states ==> !states[id].crashed && (states[id].status.Running? ==> !states[id].down)
  }

  class Loader {
    var states: States

    constructor ()
      ensures states == map[]
    {
      states := map[];
    }

    method Add(id: string, l: Life) returns (ok: bool)
      modifies this
      ensures ok == (id !in old(states))
      ensures states == if ok then old(states)[id := l] else old(states)
    {
      if id in states {
        return false;
      }
      states := states[id := l];
      return true;
    }

    /** A module that cannot be closed stays in the table. */
    method Del(id: string, removed: bool) returns (ok: bool)
      modifies this
      ensures ok == (id in old(states) && Close(old(states)[id], removed).1)
      ensures states == if ok then old(states) - {id} else old(states)
    {
      if id !in states {
        return false;
      }
      var (l, closed) := Close(states[id], removed);
      if !closed {
        return false;
      }
      states := states - {id};
      return true;
    }

    method StartById(id: string, added: bool) returns (ok: bool)
      modifies this
      ensures ok == (id in old(states) && Start(old(states)[id], added).1)
      ensures states == if id in old(states) then old(states)[id := Start(old(states)[id], added).0] else old(states)
    {
      if id !in states {
        return false;
      }
      var (l, started) := Start(states[id], added);
      states := states[id := l];
      return started;
    }

    method StopById(id: string, removed: bool) returns (ok: bool)
      modifies this
      ensures ok == (id in old(states) && Stop(old(states)[id], removed).1)
      ensures states == if id in old(states) then old(states)[id := Stop(old(states)[id], removed).0] else old(states)
    {
      if id !in states {
        return false;
      }
      var (l, stopped) := Stop(states[id], removed);
      states := states[id := l];
      return stopped;
    }
  }
}
