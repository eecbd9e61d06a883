/**
 What each event does to one service, spelled out in terms of its record, the kernel's answer and the
 numbers of the signals, and of nothing else: the reader needs no other definition of the model.
 */
module Outcomes {
  import opened Types
  import opened Histories
  import opened Steps
  import opened Invariants
  import opened Lifecycles
  import opened Reloads
  import opened Runs

  // ---------------------------------------------------------------- timer

  /** Neither pending nor `on_exit` speaks for a service that never ran or that was stopped by request. */
  ghost predicate OnExitCounts(s: Service) {
    && s.state.Stopped? && s.pending == NoAction
    && s.state.reason != NeverStarted && !s.state.reason.SupervisorTerminated?
  }

  ghost predicate TickSpelled(w: World, e: Event, w': World, id: nat)
    requires e.Timer? && id in w.services
  {
    var s := w.services[id];
    var works := id in e.onTick && e.onTick[id].ok;
    var removed := s.state.Stopped? && (s.pending == Remove || (OnExitCounts(s) && s.config.onExit == Remove));
    var restarted := s.state.Stopped? && (s.pending == Restart || (OnExitCounts(s) && s.config.onExit == Restart));
    && (id !in w'.services <==> removed)
    && Forks(w'.history, id) == Forks(w.history, id) + (if restarted && works then 1 else 0)
    && (id in w'.services ==>
          w'.services[id] == if !s.state.Stopped? then s
                             else if restarted && works
                             then s.(pending := NoAction, state := Running(e.onTick[id].pid))
                             else s.(pending := NoAction))
    && Kills(w'.history, id) ==
       Kills(w.history, id) + (if s.state.Stopping? && w.clock >= s.state.deadline then 1 else 0)
  }

  lemma TickMove(w: World, e: Event, w': World, id: nat)
    requires LocalStep(w, e, w', id) && e.Timer? && id in w.services
    ensures TickSpelled(w, e, w', id)
  {
    assert id in w'.services <==> Entry(w', id).Some?;
  }

  /**
   A tick removes a service exactly when that is pending, or nothing is pending and `on_exit` says so
   after an end that counts; it restarts one exactly under the same condition for Restart, if the fork
   succeeds; it forgets what was pending for any other stopped service; and it sends SIGKILL exactly to
   those past their deadline.
   */
  lemma TickOutcome(w: World, e: Event, id: nat)
    requires Inv(w) && Possible(w, e) && e.Timer? && id in w.services
    ensures TickSpelled(w, e, Step(w, e), id)
  {
    StepAt(w, e, id);
    TickMove(w, e, Step(w, e), id);
  }

  // ---------------------------------------------------------------- SIGCHLD

  /** What becomes of the state of a service whose process has ended. */
  ghost predicate EndSpelled(state: ServiceState, exit: ExitReason, reason: StopReason) {
    match exit
    case Exited(code) =>
      if state.Stopping? then reason == SupervisorTerminated(Exited(code))
      else if code == 0 then reason == Success
      else reason == Error(code)
    case Signaled(sig) =>
      if sig == 4 || sig == 6 || sig == 7 || sig == 8 || sig == 11 then reason == Crashed(sig)
      else if state.Stopping? then reason == SupervisorTerminated(Signaled(sig))
      else reason == Killed(sig)
  }

  ghost predicate ReapSpelled(w: World, e: Event, w': World, id: nat)
    requires e.ChildSignal? && id in w.services
  {
    var s := w.services[id];
    && id in w'.services
    && Forks(w'.history, id) == Forks(w.history, id)
    && if !s.state.Stopped? && s.state.pid in e.reaped && s.state.pid in w.waitable && w.waitable[s.state.pid].Ended?
       then
         && w'.services[id].state.Stopped? && w'.services[id] == s.(state := w'.services[id].state)
         && EndSpelled(s.state, w.waitable[s.state.pid].reason, w'.services[id].state.reason)
         && Reaps(w'.history, id) == Reaps(w.history, id) + 1
       else w'.services[id] == s && Reaps(w'.history, id) == Reaps(w.history, id)
  }

  lemma ReapMove(w: World, e: Event, w': World, id: nat)
    requires LocalStep(w, e, w', id) && e.ChildSignal? && id in w.services
    ensures ReapSpelled(w, e, w', id)
  {
    assert id in w'.services <==> Entry(w', id).Some?;
  }

  /**
   SIGCHLD stops exactly the services whose process has ended, for a reason that says how, and changes
   nothing else about them; a change of status that is not an end changes nothing.
   */
  lemma ReapOutcome(w: World, e: Event, id: nat)
    requires Inv(w) && Possible(w, e) && e.ChildSignal? && id in w.services
    ensures ReapSpelled(w, e, Step(w, e), id)
  {
    StepAt(w, e, id);
    ReapMove(w, e, Step(w, e), id);
  }

  // ---------------------------------------------------------------- control FIFO and shutdown

  ghost predicate CommandSpelled(w: World, e: Event, w': World, id: nat)
    requires e.Command? && id in w.services
  {
    var s := w.services[id];
    var ok := e.target == id && e.answer.ok;
    var starts := e.target == id && s.state.Stopped? && s.pending == NoAction && (e.op == Start || e.op == RestartOp);
    var restarts := e.target == id && s.state.Running? && s.pending == NoAction && e.op == RestartOp;
    var stops := e.target == id && s.state.Running? && e.op == Stop;
    var returned := w.clock + e.answer.elapsed;
    && id in w'.services
    && Forks(w'.history, id) == Forks(w.history, id) + (if starts && ok then 1 else 0)
    && Stops(w'.history, id) == Stops(w.history, id) + (if (stops || restarts) && ok then 1 else 0)
    && w'.services[id] == s.(pending := if restarts then Restart else s.pending, state := w'.services[id].state)
    && w'.services[id].state == (if starts && ok then Running(e.answer.pid)
                                 else if (stops || restarts) && ok
                                 then Stopping(s.state.pid, returned + 1_000_000 * s.config.stopTimeoutMs)
                                 else s.state)
  }

  lemma CommandTakes(w: World, e: Event)
    requires Possible(w, e) && e.Command?
    ensures Step(w, e).clock <= w.clock + e.answer.elapsed
  {
  }

  lemma CommandMove(w: World, e: Event, w': World, id: nat)
    requires LocalStep(w, e, w', id) && e.Command? && id in w.services
    requires w'.clock <= w.clock + e.answer.elapsed
    ensures CommandSpelled(w, e, w', id)
  {
  }

  /** A command starts, stops or restarts the service it addresses, exactly in the states that allow it. */
  lemma CommandOutcome(w: World, e: Event, id: nat)
    requires Inv(w) && Possible(w, e) && e.Command? && id in w.services
    ensures CommandSpelled(w, e, Step(w, e), id)
  {
    StepAt(w, e, id);
    CommandTakes(w, e);
    CommandMove(w, e, Step(w, e), id);
  }

  /** A command is reported as failed exactly if it had to start or stop its service and could not. */
  lemma CommandOkIff(w: World, id: nat, op: ControlOp, a: Answer)
    ensures Control(w, id, op, a).ok <==>
            !(id in w.services && !a.ok &&
              var s := w.services[id];
              || (op == Stop && s.state.Running?)
              || (op != Stop && s.state.Stopped? && s.pending == NoAction)
              || (op == RestartOp && s.state.Running? && s.pending == NoAction))
  {
  }

  ghost predicate RequestSpelled(w: World, e: Event, w': World, id: nat)
    requires e.Terminate? && id in w.services
  {
    var s := w.services[id];
    var stopped := w.phase == Serving && s.state.Running? && id in e.onStop && e.onStop[id].ok;
    && id in w'.services && w'.phase == ShuttingDown
    && Forks(w'.history, id) == Forks(w.history, id)
    && Stops(w'.history, id) == Stops(w.history, id) + (if stopped then 1 else 0)
    && (if !stopped then w'.services[id] == s
        else w'.services[id].state.Stopping? && w'.services[id].state.pid == s.state.pid
             && w'.services[id].state.deadline >= w.clock + e.onStop[id].elapsed + 1_000_000 * s.config.stopTimeoutMs
             && w'.services[id] == s.(state := w'.services[id].state))
  }

  lemma RequestMove(w: World, e: Event, w': World, id: nat)
    requires LocalStep(w, e, w', id) && e.Terminate? && id in w.services
    ensures RequestSpelled(w, e, w', id)
  {
    assert id in w'.services <==> Entry(w', id).Some?;
  }

  /** The first shutdown request stops every running service whose signal gets through; later ones do nothing. */
  lemma RequestOutcome(w: World, e: Event, id: nat)
    requires Inv(w) && Possible(w, e) && e.Terminate? && id in w.services
    ensures RequestSpelled(w, e, Step(w, e), id)
  {
    StepAt(w, e, id);
    RequestMove(w, e, Step(w, e), id);
  }

  /** Only a reload adds services, and nothing is forked for a service that is not there. */
  lemma NothingAppears(w: World, e: Event, id: nat)
    requires Inv(w) && Possible(w, e) && !e.Hangup? && id !in w.services
    ensures id !in Step(w, e).services && Forks(Step(w, e).history, id) == Forks(w.history, id)
  {
    StepAt(w, e, id);
    assert id in Step(w, e).services <==> Entry(Step(w, e), id).Some?;
  }

  // ---------------------------------------------------------------- SIGHUP

  /**
   A SIGHUP whose configuration cannot be read, or that comes after shutdown was requested, changes
   nothing at all; any other has exactly the effects of the names it gets to.
   */
  lemma HangupOutcome(w: World, e: Event, id: nat)
    requires Inv(w) && Possible(w, e) && e.Hangup?
    ensures e.config.None? || w.phase == ShuttingDown ==> Step(w, e) == w
    ensures e.config.Some? && w.phase == Serving ==>
      var done := AppliedNames(w, e.config.value, e.scan, e.applied, e.byName);
      ReloadsPartly(w, e.config.value, e.byName, RetiredNames(w, e.config.value, e.scan, e.removal, e.byName), done,
                    Newcomers(done, Index(w.services, e.scan)), Step(w, e), id)
  {
    if e.config.Some? && w.phase == Serving {
      PartialReloadAt(w, e.config.value, e.scan, e.removal, e.applied, e.byName, id);
    }
  }

  // ---------------------------------------------------------------- the deadline SIGKILL is final

  /** No reload, no Start or Restart for `id`, and a process of `id` that ends is ended by SIGKILL. */
  ghost predicate EndsByKill(w: World, e: Event, id: nat) {
    match e
    case Hangup(_, _, _, _, _) => false
    case Command(target, op, _) => target != id || op == Stop
    case ChildSignal(order, _) =>
      id in w.services && !w.services[id].state.Stopped? && w.services[id].state.pid in order &&
      w.services[id].state.pid in w.waitable && w.waitable[w.services[id].state.pid].Ended? ==>
        w.waitable[w.services[id].state.pid].reason == Signaled(9)
    case _ => true
  }

  ghost predicate AllEndByKill(w: World, es: seq<Event>, id: nat)
    requires Feasible(w, es)
  {
    es == [] || (AllEndByKill(w, es[..|es| - 1], id) && EndsByKill(Run(w, es[..|es| - 1]), es[|es| - 1], id))
  }

  /** Stopping with nothing pending, or ended by SIGKILL after that. */
  ghost predicate KilledOrStopping(w: World, id: nat) {
    && id in w.services && w.services[id].pending == NoAction
    && (w.services[id].state.Stopping? || w.services[id].state == Stopped(SupervisorTerminated(Signaled(9))))
  }

  lemma KillMove(w: World, e: Event, w': World, id: nat)
    requires LocalStep(w, e, w', id) && KilledOrStopping(w, id) && EndsByKill(w, e, id)
    ensures KilledOrStopping(w', id) && Forks(w'.history, id) == Forks(w.history, id)
  {
    assert id in w'.services <==> Entry(w', id).Some?;
  }

  /**
   A service that is stopped by request and does not react is killed at its deadline, and stays down:
   whatever its `on_exit`, SIGKILL after a stop signal is never taken for a crash and restarts nothing.
   */
  lemma {:induction false} DeadlineKillIsFinal(w: World, es: seq<Event>, id: nat)
    requires Inv(w) && Feasible(w, es) && KilledOrStopping(w, id) && AllEndByKill(w, es, id)
    ensures KilledOrStopping(Run(w, es), id) && Forks(Run(w, es).history, id) == Forks(w.history, id)
  {
    if es != [] {
      DeadlineKillIsFinal(w, es[..|es| - 1], id);
      RunInv(w, es[..|es| - 1]);
      StepAt(Run(w, es[..|es| - 1]), es[|es| - 1], id);
      KillMove(Run(w, es[..|es| - 1]), es[|es| - 1], Run(w, es), id);
    }
  }
}
