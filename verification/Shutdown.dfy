/** The shutdown protocol: when the loop may be left, and what can keep it from being left. */
module Shutdowns {
  import opened Types
  import opened Histories
  import opened Steps
  import opened Invariants
  import opened Lifecycles

  /** The services that are not stopped. */
  function Live(w: World): set<nat> {
    set id | id in w.services && !w.services[id].IsStopped()
  }

  // ---------------------------------------------------------------- leaving the loop

  /** While shutting down, the loop runs as long as some service is not stopped, and no longer. */
  ghost predicate LeavesInTime(w: World) {
    && (w.phase.ShuttingDown? && w.exit.Looping? ==> Live(w) != {})
    && (w.exit.ExitedOk? ==> w.phase.ShuttingDown? && Live(w) == {})
  }

  /** Only a reap ends a live service. */
  lemma StaysLive(w: World, e: Event, w': World, id: nat)
    requires LocalStep(w, e, w', id) && id in Live(w) && !e.ChildSignal?
    requires e.Hangup? ==> w.phase.ShuttingDown?
    ensures id in Live(w')
  {
    assert id in w'.services <==> Entry(w', id).Some?;
  }

  lemma ExitOfReap(w: World, e: Event)
    requires Possible(w, e) && Inv(w) && e.ChildSignal?
    ensures var w' := Step(w, e);
      w'.exit == if e.failed then ExitedErr
                 else if w'.phase.ShuttingDown? && Live(w') == {} then ExitedOk else Looping
  {
    ReapAllAt(w, e.reaped, 0);
    LeavesIffNoneLive(ReapAll(w, e.reaped));
  }

  lemma ExitOfRequest(w: World, e: Event)
    requires Possible(w, e) && e.Terminate?
    ensures Step(w, e).exit == if Live(Step(w, e)) == {} then ExitedOk else Looping
    ensures Step(w, e).phase.ShuttingDown?
  {
    var w1 := w.(phase := ShuttingDown);
    StopAllAt(w1, e.stopped, e.onStop, 0);
    LeavesIffNoneLive(StopAll(w1, e.stopped, e.onStop));
    LeavesIffNoneLive(w);
  }

  lemma ExitOf(w: World, e: Event)
    requires Possible(w, e) && Inv(w)
    ensures var w' := Step(w, e);
      w'.exit == if e.LoopError? || (e.ChildSignal? && e.failed) then ExitedErr
                 else if (e.ChildSignal? || e.Terminate?) && w'.phase.ShuttingDown? && Live(w') == {} then ExitedOk
                 else Looping
  {
    match e
    case Hangup(config, scan, removal, applied, answers) =>
      if w.phase.Serving? && config.Some? {
        ReloadForks(w, config.value, scan, removal, applied, answers, 0);
      }
    case ChildSignal(_, _) => ExitOfReap(w, e);
    case Terminate(_, _) => ExitOfRequest(w, e);
    case Timer(order, answers) => TickAllAt(w, w.clock, order, answers, 0);
    case _ =>
  }

  lemma AllStoppedIffNoneLive(w: World)
    ensures AllStopped(w.services) <==> Live(w) == {}
  {
    assert forall id | id in w.services && !w.services[id].IsStopped() :: id in Live(w);
  }

  lemma LeavesIffNoneLive(w: World)
    ensures LeaveIfDone(w).exit == if w.phase.ShuttingDown? && Live(w) == {} then ExitedOk else w.exit
    ensures Live(LeaveIfDone(w)) == Live(w)
  {
    AllStoppedIffNoneLive(w);
  }

  lemma LeavesInTimeStep(w: World, e: Event)
    requires Inv(w) && Possible(w, e) && LeavesInTime(w)
    ensures LeavesInTime(Step(w, e))
  {
    ExitOf(w, e);
    StepAt(w, e, 0);
    if w.phase.ShuttingDown? && !e.ChildSignal? {
      var id :| id in Live(w);
      StepAt(w, e, id);
      StaysLive(w, e, Step(w, e), id);
    }
  }

  lemma {:induction false} BootServes(w: World, order: seq<nat>, answers: map<nat, Answer>)
    ensures StartAll(w, order, answers).phase == w.phase && StartAll(w, order, answers).exit == w.exit
  {
    if order != [] {
      BootServes(w, order[..|order| - 1], answers);
    }
  }

  lemma {:induction false} InsertServes(w: World, config: map<string, ServiceConfig>, order: seq<string>)
    requires forall n | n in order :: n in config
    ensures InsertAll(w, config, order).world.phase == w.phase && InsertAll(w, config, order).world.exit == w.exit
  {
    if order != [] {
      InsertServes(w, config, order[..|order| - 1]);
    }
  }

  lemma {:induction false} LeavesInTimeRun(b: World, es: seq<Event>)
    requires Booted(b) && Feasible(b, es)
    ensures Inv(Run(b, es)) && LeavesInTime(Run(b, es))
  {
    BootInv(b);
    RunInv(b, es);
    if es != [] {
      LeavesInTimeRun(b, es[..|es| - 1]);
      LeavesInTimeStep(Run(b, es[..|es| - 1]), es[|es| - 1]);
    } else {
      var clock, waitable, config, inserted, started, answers :|
        Boots(b, clock, waitable, config, inserted, started, answers);
      InsertServes(Blank(clock, waitable), config, inserted);
      BootServes(InsertAll(Blank(clock, waitable), config, inserted).world, started, answers);
    }
  }

  /**
   In every run: a normal exit means that shutdown was requested and every process ever forked for
   a service has been reaped; and once both are the case, the loop has been left.
   */
  lemma NormalExitIff(w: World)
    requires Reachable(w) && !w.exit.ExitedErr?
    ensures w.exit.ExitedOk? <==> w.phase.ShuttingDown? && Alive(w.history) == map[]
    ensures w.exit.ExitedOk? ==> forall id :: Forks(w.history, id) == Reaps(w.history, id)
  {
    var b, es :| Booted(b) && Feasible(b, es) && w == Run(b, es);
    LeavesInTimeRun(b, es);
    if Live(w) == {} && w.pids != map[] {
      var p :| p in w.pids;
      assert w.pids[p] in Live(w);
    }
    if id :| id in Live(w) {
      assert w.services[id].Pid().value in w.pids;
    }
    forall id ensures Alive(w.history) == map[] ==> Forks(w.history, id) == Reaps(w.history, id) {
      ForksMinusReaps(w.history, id);
    }
  }

  // ---------------------------------------------------------------- progress

  /** No restart is pending, and none is owed for a process that has ended. */
  predicate NotToRestart(s: Service) {
    s.pending != Restart && !RestartDue(s)
  }

  ghost predicate NoRestart(w: World) {
    forall id | id in w.services :: NotToRestart(w.services[id])
  }

  /** The service would be restarted for ending this way: it was not asked to stop, or it crashes. */
  predicate EndsInRestart(s: Service, end: ExitReason) {
    s.pending == NoAction && s.config.onExit == Restart && (IsCrash(end) || !s.state.Stopping?)
  }

  /** No Start or Restart command, and no process ends in a way that its service is to be restarted for. */
  ghost predicate Calm(w: World, e: Event) {
    match e
    case Command(_, op, _) => op == Stop
    case ChildSignal(order, _) =>
      forall id | id in w.services && Ending(w, id, order).Some? ::
        !EndsInRestart(w.services[id], Ending(w, id, order).value)
    case _ => true
  }

  ghost predicate CalmRun(w: World, es: seq<Event>)
    requires Feasible(w, es)
  {
    es == [] || (CalmRun(w, es[..|es| - 1]) && Calm(Run(w, es[..|es| - 1]), es[|es| - 1]))
  }

  lemma CalmMove(w: World, e: Event, w': World, id: nat)
    requires LocalStep(w, e, w', id) && w.phase.ShuttingDown? && Calm(w, e)
    requires id in w.services ==> NotToRestart(w.services[id])
    ensures w'.phase.ShuttingDown?
    ensures id in w'.services ==> NotToRestart(w'.services[id])
    ensures id in Live(w') <==> id in Live(w) && Reaps(w'.history, id) == Reaps(w.history, id)
    ensures Reaps(w.history, id) <= Reaps(w'.history, id)
    ensures Forks(w'.history, id) == Forks(w.history, id)
  {
    assert id in w'.services <==> Entry(w', id).Some?;
    assert id in w.services <==> Entry(w, id).Some?;
  }

  /** Without calm, a reaped service is due for restart: `Calm` excludes no more than it has to. */
  lemma CalmExactly(s: Service, end: ExitReason)
    requires !s.state.Stopped? && s.pending != Restart
    ensures RestartDue(AfterEnd(s, Some(end))) <==> EndsInRestart(s, end)
  {
  }

  lemma {:induction false} CalmRunAt(w: World, es: seq<Event>, id: nat)
    requires Inv(w) && Feasible(w, es) && w.phase.ShuttingDown? && CalmRun(w, es)
    requires id in w.services ==> NotToRestart(w.services[id])
    ensures var w' := Run(w, es);
      && w'.phase.ShuttingDown?
      && (id in w'.services ==> NotToRestart(w'.services[id]))
      && (id in Live(w') <==> id in Live(w) && Reaps(w'.history, id) == Reaps(w.history, id))
      && Reaps(w.history, id) <= Reaps(w'.history, id)
      && Forks(w'.history, id) == Forks(w.history, id)
  {
    if es != [] {
      var w1, last := Run(w, es[..|es| - 1]), es[|es| - 1];
      CalmRunAt(w, es[..|es| - 1], id);
      RunInv(w, es[..|es| - 1]);
      StepAt(w1, last, id);
      CalmMove(w1, last, Run(w, es), id);
    }
  }

  lemma CalmRunDrains(w: World, es: seq<Event>)
    requires Inv(w) && Feasible(w, es) && w.phase.ShuttingDown? && NoRestart(w) && CalmRun(w, es)
    ensures NoRestart(Run(w, es)) && forall id :: Forks(Run(w, es).history, id) == Forks(w.history, id)
    ensures Live(Run(w, es)) == set id | id in Live(w) && Reaps(Run(w, es).history, id) == Reaps(w.history, id)
  {
    var w' := Run(w, es);
    forall id ensures id in Live(w') <==> id in Live(w) && Reaps(w'.history, id) == Reaps(w.history, id) {
      CalmRunAt(w, es, id);
    }
    forall id ensures Forks(w'.history, id) == Forks(w.history, id) {
      CalmRunAt(w, es, id);
    }
    forall id | id in w'.services ensures NotToRestart(w'.services[id]) {
      CalmRunAt(w, es, id);
    }
  }

  /**
   After shutdown was requested, with no restart pending or owed, none commanded, and no process
   ending in a way its service is restarted for: nothing is forked, and the live services are exactly
   those live at the start whose process has not been reaped since. Their number never grows, and
   every reap of a service process lowers it. Services with `on_exit = "Restart"` are included: they
   only have to be stopping, and not to crash.
   */
  lemma ShutdownOnlyDrains(w: World, es: seq<Event>)
    requires Inv(w) && Feasible(w, es) && w.phase.ShuttingDown? && NoRestart(w) && CalmRun(w, es)
    ensures NoRestart(Run(w, es)) && forall id :: Forks(Run(w, es).history, id) == Forks(w.history, id)
    ensures Live(Run(w, es)) == set id | id in Live(w) && Reaps(Run(w, es).history, id) == Reaps(w.history, id)
    ensures |Live(Run(w, es))| <= |Live(w)|
    ensures (exists id :: id in Live(w) && Reaps(Run(w, es).history, id) != Reaps(w.history, id)) ==>
              |Live(Run(w, es))| < |Live(w)|
  {
    var w' := Run(w, es);
    CalmRunDrains(w, es);
    assert Live(w') <= Live(w);
    SubsetSize(Live(w'), Live(w));
    if id :| id in Live(w) && Reaps(w'.history, id) != Reaps(w.history, id) {
      SubsetSize(Live(w'), Live(w) - {id});
    }
  }

  lemma {:induction false} SubsetSize(a: set<nat>, b: set<nat>)
    requires a <= b
    ensures |a| <= |b|
  {
    if x :| x in a {
      SubsetSize(a - {x}, b - {x});
    }
  }

  // ---------------------------------------------------------------- the exact boundary

  /** The event starts a process although the supervisor is shutting down. */
  ghost predicate Revives(w: World, e: Event) {
    exists id :: StartsAt(w, e, id)
  }

  /**
   Neither the tick nor commands look at the phase, so "no service comes back after shutdown was
   requested" does not hold; it fails at exactly the events that revive one.
   */
  lemma ShutdownShrinksIff(w: World, e: Event)
    requires Inv(w) && Possible(w, e) && w.phase.ShuttingDown?
    ensures Live(Step(w, e)) <= Live(w) <==> !Revives(w, e)
  {
    var w' := Step(w, e);
    forall id ensures id in Live(w') && id !in Live(w) <==> StartsAt(w, e, id) {
      StepAt(w, e, id);
      LifeMove(w, e, w', id);
    }
  }

  lemma LifeMove(w: World, e: Event, w': World, id: nat)
    requires LocalStep(w, e, w', id) && w.phase.ShuttingDown?
    ensures id in Live(w') && id !in Live(w) <==> StartsAt(w, e, id)
  {
    assert id in w'.services <==> Entry(w', id).Some?;
    assert id in w.services <==> Entry(w, id).Some?;
  }

  // ---------------------------------------------------------------- what can keep shutdown waiting

  /** Every live service has been sent its stop signal, and so has a deadline. */
  ghost predicate NoneRunning(w: World) {
    forall id | id in w.services :: !w.services[id].state.Running?
  }

  lemma HaltMove(w: World, e: Event, w': World, id: nat)
    requires LocalStep(w, e, w', id) && e.Terminate? && w.phase.Serving?
    ensures id in w'.services && w'.services[id].state.Running? <==>
            id in w.services && w.services[id].state.Running? && !Ask(e.onStop, id).ok
  {
  }

  /** The shutdown request leaves nothing running exactly when every stop signal it sends gets through. */
  lemma RequestStopsAllIff(w: World, e: Event)
    requires Inv(w) && Possible(w, e) && e.Terminate? && w.phase.Serving?
    ensures NoneRunning(Step(w, e)) <==>
            forall id | id in w.services && w.services[id].state.Running? :: Ask(e.onStop, id).ok
  {
    var w' := Step(w, e);
    forall id
      ensures id in w'.services && w'.services[id].state.Running? <==>
              id in w.services && w.services[id].state.Running? && !Ask(e.onStop, id).ok
    {
      StepAt(w, e, id);
      HaltMove(w, e, w', id);
    }
  }

  lemma RevivesMove(w: World, e: Event, w': World, id: nat)
    requires LocalStep(w, e, w', id) && w.phase.ShuttingDown?
    requires id in w.services ==> !w.services[id].state.Running?
    ensures id in w'.services && w'.services[id].state.Running? <==> StartsAt(w, e, id)
  {
    assert id in w'.services <==> Entry(w', id).Some?;
    assert id in w.services <==> Entry(w, id).Some?;
  }

  /** While shutting down, nothing comes to run again except at exactly the events that revive a service. */
  lemma NoneRunningIff(w: World, e: Event)
    requires Inv(w) && Possible(w, e) && w.phase.ShuttingDown? && NoneRunning(w)
    ensures NoneRunning(Step(w, e)) <==> !Revives(w, e)
  {
    var w' := Step(w, e);
    forall id ensures id in w'.services && w'.services[id].state.Running? <==> StartsAt(w, e, id) {
      StepAt(w, e, id);
      RevivesMove(w, e, w', id);
    }
  }

  ghost predicate NeverRevives(w: World, es: seq<Event>)
    requires Feasible(w, es)
  {
    es == [] || (NeverRevives(w, es[..|es| - 1]) && !Revives(Run(w, es[..|es| - 1]), es[|es| - 1]))
  }

  /** ... and over a whole run: until something is revived, every service that is left has a deadline. */
  lemma {:induction false} NoneRunningRun(w: World, es: seq<Event>)
    requires Inv(w) && Feasible(w, es) && w.phase.ShuttingDown? && NoneRunning(w) && NeverRevives(w, es)
    ensures Run(w, es).phase.ShuttingDown? && NoneRunning(Run(w, es))
  {
    if es != [] {
      var v := Run(w, es[..|es| - 1]);
      NoneRunningRun(w, es[..|es| - 1]);
      RunInv(w, es[..|es| - 1]);
      NoneRunningIff(v, es[|es| - 1]);
      StepAt(v, es[|es| - 1], 0);
    }
  }

  /** So a tick past its deadline sends SIGKILL to every service that shutdown still waits for. */
  lemma WaitedForIsKilled(w: World, es: seq<Event>, tick: Event, id: nat)
    requires Inv(w) && Feasible(w, es) && w.phase.ShuttingDown? && NoneRunning(w) && NeverRevives(w, es)
    requires tick.Timer? && Possible(Run(w, es), tick) && id in Live(Run(w, es))
    ensures Run(w, es).services[id].state.Stopping?
    ensures Kills(Step(Run(w, es), tick).history, id) == Kills(Run(w, es).history, id) +
            One(Run(w, es).clock >= Run(w, es).services[id].state.deadline)
  {
    NoneRunningRun(w, es);
    RunInv(w, es);
    StepAt(Run(w, es), tick, id);
  }

  /** The process of `id` does not end, and nobody sends a command for `id`. */
  ghost predicate LeftAlone(w: World, e: Event, id: nat) {
    match e
    case ChildSignal(order, _) => Ending(w, id, order).None?
    case Command(target, _, _) => target != id
    case _ => true
  }

  ghost predicate AllLeftAlone(w: World, es: seq<Event>, id: nat)
    requires Feasible(w, es)
  {
    es == [] || (AllLeftAlone(w, es[..|es| - 1], id) && LeftAlone(Run(w, es[..|es| - 1]), es[|es| - 1], id))
  }

  lemma AloneMove(w: World, e: Event, w': World, id: nat)
    requires LocalStep(w, e, w', id) && w.phase.ShuttingDown? && LeftAlone(w, e, id)
    requires id in w.services && w.services[id].state.Running?
    ensures w'.phase.ShuttingDown? && Entry(w', id) == Entry(w, id) && Kills(w'.history, id) == Kills(w.history, id)
  {
  }

  /**
   A service that is running after the shutdown request, because its stop signal failed or because it
   was revived, is waited for without end: further SIGTERMs, reloads and ticks do not touch it, and it
   gets no SIGKILL, until its process ends by itself or a command stops it.
   */
  lemma {:induction false} ShutdownWaits(w: World, es: seq<Event>, id: nat)
    requires Inv(w) && Feasible(w, es) && w.phase.ShuttingDown? && AllLeftAlone(w, es, id)
    requires id in w.services && w.services[id].state.Running?
    ensures Run(w, es).phase.ShuttingDown? && (es != [] ==> !Run(w, es).exit.ExitedOk?)
    ensures Entry(Run(w, es), id) == Entry(w, id) && Kills(Run(w, es).history, id) == Kills(w.history, id)
  {
    if es != [] {
      var v := Run(w, es[..|es| - 1]);
      ShutdownWaits(w, es[..|es| - 1], id);
      RunInv(w, es[..|es| - 1]);
      assert id in v.services <==> Entry(v, id).Some?;
      StepAt(v, es[|es| - 1], id);
      AloneMove(v, es[|es| - 1], Run(w, es), id);
      assert id in Run(w, es).services <==> Entry(Run(w, es), id).Some?;
      ExitOf(v, es[|es| - 1]);
      assert id in Live(Run(w, es));
    }
  }
}
