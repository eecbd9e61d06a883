/** Claims one would like to make and the code does not keep, each with its exact limits. */
module Boundaries {
  import opened Types
  import opened Histories
  import opened Steps
  import opened Invariants
  import opened Lifecycles
  import opened Reloads

  // ---------------------------------------------------------------- a rejected definition

  /**
   `update_config` is not all or nothing. The environment and the configuration always agree
   afterwards; argv agrees with them unless the environment was rejected after argv had been replaced.
   */
  lemma UpdateConfigAgreesIff(s: Service, c: ServiceConfig)
    requires Argv(s.config) == Some(s.argv) && Envp(s.config) == Some(s.envp)
    ensures var (s', ok) := UpdateConfig(s, c);
      && (ok <==> Buildable(c)) && s'.config == (if ok then c else s.config)
      && Envp(s'.config) == Some(s'.envp)
      && (Argv(s'.config) == Some(s'.argv) <==> Argv(c).None? || Envp(c).Some? || Argv(c) == Argv(s.config))
  {
  }

  /** The environment of every service in every run is the one its configuration describes. */
  lemma EnvironmentsNeverStale(w: World, id: nat)
    requires Reachable(w) && id in w.services
    ensures w.services[id].envp == w.services[id].config.env
  {
    ReachableInv(w);
  }

  // ---------------------------------------------------------------- stopping for a new definition

  /** A changed service is stopped with the signal and the timeout of its new definition. */
  lemma StoppedByNewDefinition(w: World, id: nat, c: ServiceConfig, a: Answer)
    requires id in w.services && w.services[id].state.Running? && w.services[id].config != c
    ensures var o := ReviseOne(w, id, c, a);
      o.ok ==>
        && o.world.history.Then? && o.world.history.past == w.history
        && var e := o.world.history.last;
        && e.StopSent? && e.id == id && e.pid == w.services[id].state.pid
        && e.signal == c.stopSignal && e.timeoutMs == c.stopTimeoutMs
        && o.world.services[id].state == Stopping(e.pid, e.deadline)
        && e.deadline == w.clock + a.elapsed + 1_000_000 * c.stopTimeoutMs
  {
  }

  /** A stop signal that cannot be sent leaves a running service with a pending action. */
  lemma FailedStopLeavesPending(w: World, config: map<string, ServiceConfig>, name: string, id: nat, a: Answer)
    requires id in w.services && w.services[id].name == name
    ensures var o := RemoveOne(w, config, name, id, a);
      !o.ok <==> name !in config && w.services[id].state.Running? && !a.ok
    ensures var o := RemoveOne(w, config, name, id, a);
      !o.ok ==> id in o.world.services && o.world.services[id] == w.services[id].(pending := Remove)
                && Alive(o.world.history) == Alive(w.history)
  {
  }

  // ---------------------------------------------------------------- restarts that fail

  /**
   The tick takes the pending action before it tries to start. An explicit restart that fails is
   forgotten: the next tick tries again exactly when `on_exit` would have restarted the service anyway.
   */
  lemma FailedRestartForgotten(s: Service, a: Answer)
    requires s.state.Stopped? && s.pending == Restart && !a.ok
    ensures Ticked(s, a).Some? && Ticked(s, a).value == s.(pending := NoAction)
    ensures RestartDue(Ticked(s, a).value) <==>
            s.config.onExit == Restart && !s.state.reason.NeverStarted? && !s.state.reason.SupervisorTerminated?
  {
  }

  // ---------------------------------------------------------------- a running service with something pending

  /** "A running service has nothing pending": what one would expect, and what is not kept. */
  ghost predicate RunningIsFree(w: World) {
    forall id | id in w.services && w.services[id].state.Running? :: w.services[id].pending == NoAction
  }

  /** A Restart command whose stop signal cannot be sent. */
  predicate RestartStuck(w: World, e: Event) {
    && e.Command? && e.op == RestartOp && !e.answer.ok
    && e.target in w.services && w.services[e.target].state.Running?
  }

  /** The removal of a running service whose stop signal cannot be sent. */
  predicate RemovalStuck(s: Service, a: Answer) {
    s.state.Running? && !a.ok
  }

  /** A change of definition that starts a stopped service with its pending action, or cannot stop a running one. */
  predicate RevisionStuck(s: Service, c: ServiceConfig, a: Answer) {
    && s.config != c && Buildable(c)
    && ((s.state.Stopped? && s.pending != NoAction && a.ok) || (s.state.Running? && !a.ok))
  }

  predicate ReloadStuckAt(s: Service, config: map<string, ServiceConfig>, answers: map<string, Answer>,
                          retired: seq<string>, done: seq<string>)
  {
    if s.name in config then s.name in done && RevisionStuck(s, config[s.name], Ask(answers, s.name))
    else s.name in retired && RemovalStuck(s, Ask(answers, s.name))
  }

  ghost predicate ReloadStuck(w: World, config: map<string, ServiceConfig>, answers: map<string, Answer>,
                              retired: seq<string>, done: seq<string>)
  {
    exists id :: id in w.services && ReloadStuckAt(w.services[id], config, answers, retired, done)
  }

  lemma FreeAfterReload(w: World, config: map<string, ServiceConfig>, answers: map<string, Answer>,
                        retired: seq<string>, done: seq<string>, news: seq<string>, w': World, id: nat)
    requires ReloadsPartly(w, config, answers, retired, done, news, w', id)
    requires id in w.services && w.services[id].state.Running? ==> w.services[id].pending == NoAction
    ensures id in w.services && ReloadStuckAt(w.services[id], config, answers, retired, done) <==>
            id in w'.services && w'.services[id].state.Running? && w'.services[id].pending != NoAction
  {
    assert id in w'.services <==> Entry(w', id).Some?;
  }

  /**
   A reload, successful or not, keeps running services free of pending actions exactly when it gets
   neither to a stop signal that fails nor to a stopped, changed service that had a pending action.
   */
  lemma ReloadKeepsFreeIff(w: World, config: map<string, ServiceConfig>, scan: seq<nat>, removal: seq<string>,
                           applied: seq<string>, answers: map<string, Answer>)
    requires Inv(w) && RunningIsFree(w) && ReloadOrders(w, config, scan, removal, applied)
    ensures RunningIsFree(Reload(w, config, scan, removal, applied, answers).world) <==>
            !ReloadStuck(w, config, answers, RetiredNames(w, config, scan, removal, answers),
                         AppliedNames(w, config, scan, applied, answers))
  {
    var w' := Reload(w, config, scan, removal, applied, answers).world;
    var retired := RetiredNames(w, config, scan, removal, answers);
    var done := AppliedNames(w, config, scan, applied, answers);
    forall id
      ensures id in w.services && ReloadStuckAt(w.services[id], config, answers, retired, done) <==>
              id in w'.services && w'.services[id].state.Running? && w'.services[id].pending != NoAction
    {
      PartialReloadAt(w, config, scan, removal, applied, answers, id);
      FreeAfterReload(w, config, answers, retired, done, Newcomers(done, Index(w.services, scan)), w', id);
    }
  }

  lemma MoveKeepsFree(w: World, e: Event, w': World, id: nat)
    requires LocalStep(w, e, w', id) && !e.Hangup?
    requires id in w.services && w.services[id].state.Running? ==> w.services[id].pending == NoAction
    ensures RestartStuck(w, e) && e.target == id <==>
            id in w'.services && w'.services[id].state.Running? && w'.services[id].pending != NoAction
  {
    assert id in w'.services <==> Entry(w', id).Some?;
    assert id in w.services <==> Entry(w, id).Some?;
  }

  /** The event leaves a running service with something pending. */
  ghost predicate LeavesStuck(w: World, e: Event)
    requires Inv(w) && Possible(w, e)
  {
    if e.Hangup? then
      e.config.Some? && w.phase.Serving? &&
      ReloadStuck(w, e.config.value, e.byName, RetiredNames(w, e.config.value, e.scan, e.removal, e.byName),
                  AppliedNames(w, e.config.value, e.scan, e.applied, e.byName))
    else RestartStuck(w, e)
  }

  /** Every event keeps running services free of pending actions, with exactly these exceptions. */
  lemma StepKeepsFreeIff(w: World, e: Event)
    requires Inv(w) && Possible(w, e) && RunningIsFree(w)
    ensures RunningIsFree(Step(w, e)) <==> !LeavesStuck(w, e)
  {
    if !e.Hangup? {
      var w' := Step(w, e);
      forall id
        ensures RestartStuck(w, e) && e.target == id <==>
                id in w'.services && w'.services[id].state.Running? && w'.services[id].pending != NoAction
      {
        StepAt(w, e, id);
        MoveKeepsFree(w, e, w', id);
      }
      if RestartStuck(w, e) {
        assert !RunningIsFree(w') by {
          assert e.target in w'.services;
        }
      }
    } else if w.phase.Serving? && e.config.Some? {
      ReloadKeepsFreeIff(w, e.config.value, e.scan, e.removal, e.applied, e.byName);
    }
  }
}
